/** What readers of a reachable world get to see: verification of stored tokens, the two public read paths,
    the gateway's persist path and batch downloads. */
module ReadPaths {
  import opened Wrappers
  import opened Text
  import opened Crypto
  import opened Canonical
  import opened Token
  import opened Tables
  import opened Protocol
  import opened ProtocolInvariant
  import opened ProtocolRuns
  import opened Download
  import R = RegistryRuns
  import Rep = Repository
  import V = Verification

  /** `cfg` is the deployment with payload key `key`: its hash and token are the worker's. */
  ghost predicate DeployedWith(cfg: Config, key: seq<byte>) {
    && R.Deployed(cfg) && Lawful(cfg.p)
    && forall sk: PrivateKey, t: Stamp, s: Student, vuz: Uuid {:trigger cfg.issue(sk, t, s, vuz)} ::
         cfg.issue(sk, t, s, vuz) == IssueToken(cfg.p, key, sk, t, s, vuz)
  }

  lemma DeployIsDeployed(p: Primitives, key: seq<byte>, master: seq<byte>)
    requires Lawful(p)
    ensures DeployedWith(Deploy(p, key, master), key)
  {
    hide IssueToken;
  }

  // ---- stored rows ----

  /** The token of an ok row was issued for the record at its index, with the university's key. */
  ghost predicate StoredIssue(p: Primitives, key: seq<byte>, db: Db, k: RowKey, sk: PrivateKey, t: Stamp)
  {
    && k in db.results && k in db.payloads && k.batch in db.batches
    && ValidStamp(t) && !Blank(db.payloads[k].number)
    && V.KeyMatches(p, db.universities, db.batches[k.batch].vuz, sk)
    && V.Registered(p, db.registry, db.payloads[k], db.batches[k.batch].vuz)
    && db.results[k].hash == Some(IssuedHash(p, db.payloads[k], db.batches[k.batch].vuz))
    && db.results[k].token == Some(IssueToken(p, key, sk, t, db.payloads[k], db.batches[k.batch].vuz))
  }

  lemma RowIsOk(cfg: Config, w: World, k: RowKey)
    requires Inv(cfg, w) && k in w.db.results
    ensures RowOk(cfg, w.db, k) && V.UniqueHashes(w.db.registry) && V.UniqueCodes(w.db.universities)
  {
  }

  lemma OkRowIsIssued(cfg: Config, key: seq<byte>, w: World, k: RowKey) returns (sk: PrivateKey, t: Stamp)
    requires DeployedWith(cfg, key) && Inv(cfg, w) && k in w.db.results && w.db.results[k].status == Ok
    ensures StoredIssue(cfg.p, key, w.db, k, sk, t) && V.UniqueHashes(w.db.registry) && V.UniqueCodes(w.db.universities)
  {
    hide Inv;
    hide IssueToken;
    hide IssuedHash;
    RowIsOk(cfg, w, k);
    var s, vuz := w.db.payloads[k], w.db.batches[k.batch].vuz;
    var sk0, t0 :| ValidStamp(t0) && V.KeyMatches(cfg.p, w.db.universities, vuz, sk0)
                   && w.db.results[k].token.value == cfg.issue(sk0, t0, s, vuz);
    sk, t := sk0, t0;
  }

  /** End to end: in every reachable world the public verifier accepts the token stored in an ok row exactly if
      the record uploaded at that index is trimmed and complete, and then answers with that record. */
  lemma {:induction false} StoredTokenVerifies(cfg: Config, key: seq<byte>, actions: seq<Action>, k: RowKey, pick: Option<RowKey>)
    requires DeployedWith(cfg, key)
    requires var db := Run(cfg, INITIAL, actions).db; k in db.results && db.results[k].status == Ok
    requires var w := Run(cfg, INITIAL, actions);
             && k.batch in w.uploads && k.index < |w.uploads[k.batch].records|
             && CollisionFree(cfg.p, V.HashedFor(cfg.p, w.uploads[k.batch].records[k.index], w.uploads[k.batch].vuz))
    ensures var w := Run(cfg, INITIAL, actions);
            var s, vuz := w.uploads[k.batch].records[k.index], w.uploads[k.batch].vuz;
            && V.Joined(w.db, RegistryKey(vuz, s.number)) && w.db.results[k].token.Some?
            && var answer := V.VerifyPayload(cfg.p, w.db, key, w.db.results[k].token.value, pick);
            && (answer.Success? <==> AllTrimmed(s) && Complete(s))
            && (answer.Success? ==> answer.value == V.AnswerFor(cfg.p, w.db, s, vuz))
  {
    hide *;
    var w := Run(cfg, INITIAL, actions);
    DeployedLaws(cfg, key);
    Reachable(cfg, actions);
    RowRecord(cfg, w, k);
    var sk, t := OkRowIsIssued(cfg, key, w, k);
    StoredMeans(cfg.p, key, w.db, k, sk, t);
    V.IssueThenVerify(cfg.p, w.db, key, sk, t, w.db.payloads[k], w.db.batches[k.batch].vuz, pick);
  }

  lemma DeployedLaws(cfg: Config, key: seq<byte>)
    requires DeployedWith(cfg, key)
    ensures ConfigOk(cfg) && R.Deployed(cfg) && Lawful(cfg.p) && LawfulHash(cfg.p)
  {
  }

  lemma StoredMeans(p: Primitives, key: seq<byte>, db: Db, k: RowKey, sk: PrivateKey, t: Stamp)
    requires StoredIssue(p, key, db, k, sk, t)
    ensures k in db.results && k in db.payloads && k.batch in db.batches && ValidStamp(t) && !Blank(db.payloads[k].number)
    ensures var s, vuz := db.payloads[k], db.batches[k.batch].vuz;
            && V.KeyMatches(p, db.universities, vuz, sk) && V.Registered(p, db.registry, s, vuz) && V.Joined(db, RegistryKey(vuz, s.number))
            && db.results[k].hash == Some(IssuedHash(p, s, vuz)) && db.results[k].token == Some(IssueToken(p, key, sk, t, s, vuz))
  {
  }

  /** Every row stands at the index of an uploaded record, whose stored payload is that record. */
  lemma RowRecord(cfg: Config, w: World, k: RowKey)
    requires Inv(cfg, w) && k in w.db.results
    ensures k.batch in w.db.batches && k.batch in w.uploads && k.index < |w.uploads[k.batch].records|
    ensures k in w.db.payloads && w.db.payloads[k] == w.uploads[k.batch].records[k.index]
    ensures w.db.batches[k.batch].vuz == w.uploads[k.batch].vuz
    ensures w.db.batches[k.batch].vuz in w.db.universities
  {
  }

  // ---- search ----

  lemma WorkerTokenOpens(p: Primitives, key: seq<byte>, sk: PrivateKey, t: Stamp, s: Student, vuz: Uuid)
    requires Lawful(p) && ValidStamp(t) && !Blank(s.number)
    ensures var token := IssueToken(p, key, sk, t, s, vuz);
            && !Blank(token) && DecodeUnverifiedJWT(p, token).Some?
            && var outer := ExtractOuterClaims(DecodeUnverifiedJWT(p, token).value);
            && outer.Some?
            && DecryptDiplomaPayload(p, outer.value.enc, key)
               == if Complete(s) then Some(DocumentOf(s, p.sha(SaltInput(vuz, s.number))).(fullName := Trim(s.fullName))) else None
  {
    var salt := p.sha(SaltInput(vuz, s.number));
    var c := BuildQrClaims(p, key, t.nonce, t.iat, s, vuz);
    TokenReadsBack(p, c, sk);
    TokenTrimmed(p, c, sk);
    EnvelopeReadsBack(p, key, t.nonce, s, salt);
    OuterClaimsReadBack(c);
    HexIsTrimmed(salt);
    VerifierDecrypts(p, key, t.nonce, s, salt);
  }

  /** A record that carries a worker token of `s` is completed with the fields of `s`. */
  lemma EnrichedFromToken(p: Primitives, key: seq<byte>, r: V.DiplomaRecord, sk: PrivateKey, t: Stamp, s: Student, vuz: Uuid)
    requires Lawful(p) && ValidStamp(t) && !Blank(s.number) && Complete(s)
    requires r.qr == Some(IssueToken(p, key, sk, t, s, vuz)) && r.year.None?
    ensures V.Enrich(p, key, r)
         == Success(V.ApplyPayload(r, DocumentOf(s, p.sha(SaltInput(vuz, s.number))).(fullName := Trim(s.fullName))))
  {
    hide IssueToken;
    hide DecodeUnverifiedJWT;
    hide ExtractOuterClaims;
    hide DecryptDiplomaPayload;
    hide Trim;
    WorkerTokenOpens(p, key, sk, t, s, vuz);
  }

  lemma FoundByCode(db: Db, k: RegistryKey)
    requires V.Joined(db, k) && V.UniqueCodes(db.universities)
    ensures V.FindByNumber(db, db.universities[k.vuz].code, k.number) == Some(k)
  {
    var code := db.universities[k.vuz].code;
    R.FoundIsJoined(db, "", code, k.number);
    assert V.FindByNumber(db, code, k.number).Some?;
  }

  /** `Search` completes its answer from whichever ok row the lookup picked. */
  lemma {:induction false} SearchAnswers(p: Primitives, db: Db, key: seq<byte>, sk: PrivateKey, t: Stamp, s: Student, vuz: Uuid, k: RowKey)
    requires Lawful(p) && ValidStamp(t) && !Blank(s.number) && Complete(s) && Trim(s.number) == s.number
    requires V.Joined(db, RegistryKey(vuz, s.number)) && V.UniqueCodes(db.universities)
    requires Trim(db.universities[vuz].code) == db.universities[vuz].code != ""
    requires k in db.results && db.results[k].token == Some(IssueToken(p, key, sk, t, s, vuz))
    ensures var a := V.AnswerFor(p, db, s, vuz);
            V.Search(p, db, key, db.universities[vuz].code, s.number, Some(k)) ==
              Success(V.SearchResponse(a.valid, a.status, a.university, a.code, a.year, a.specialty, a.degree, a.faculty))
  {
    hide IssueToken;
    hide V.Enrich;
    hide V.UniqueCodes;
    hide V.FindByNumber;
    var rk := RegistryKey(vuz, s.number);
    FoundByCode(db, rk);
    EnrichedFromToken(p, key, V.RecordAt(db, rk, Some(k)), sk, t, s, vuz);
  }

  /** Without a stored token `Search` has nothing to complete its answer from. */
  lemma {:induction false} SearchWithoutToken(p: Primitives, db: Db, key: seq<byte>, s: Student, vuz: Uuid)
    requires !Blank(s.number) && Trim(s.number) == s.number
    requires V.Joined(db, RegistryKey(vuz, s.number)) && V.UniqueCodes(db.universities)
    requires Trim(db.universities[vuz].code) == db.universities[vuz].code != ""
    ensures var a := V.AnswerFor(p, db, s, vuz);
            V.Search(p, db, key, db.universities[vuz].code, s.number, None) ==
              Success(V.SearchResponse(a.valid, a.status, a.university, a.code, None, None, None, None))
  {
    hide V.UniqueCodes;
    hide V.FindByNumber;
    FoundByCode(db, RegistryKey(vuz, s.number));
  }

  /** A row that carries the hash of a trimmed, '|'-free record is a row of that very record. */
  lemma SameHashSameRecord(p: Primitives, uploads: Uploads, s: Student, vuz: Uuid, b: BatchId, i: nat)
    requires LawfulHash(p) && !Blank(s.number) && PipeFree(s)
    requires b in uploads && i < |uploads[b].records| && !Blank(uploads[b].records[i].number)
    requires CollisionFree(p, R.HashedIn(p, uploads) + {Issued(p, s, vuz), SaltInput(vuz, s.number)})
    requires IssuedHash(p, uploads[b].records[i], uploads[b].vuz) == IssuedHash(p, s, vuz)
    ensures uploads[b].records[i] == s && uploads[b].vuz == vuz
  {
    var hashed := R.HashedIn(p, uploads) + {Issued(p, s, vuz), SaltInput(vuz, s.number)};
    var r, v := uploads[b].records[i], uploads[b].vuz;
    assert Issued(p, r, v) in R.HashedIn(p, uploads) && SaltInput(v, r.number) in R.HashedIn(p, uploads);
    hide R.HashedIn;
    hide SaltInput;
    hide PipeFree;
    assert Issued(p, r, v) in hashed && Issued(p, s, vuz) in hashed;
    assert Issued(p, r, v) == Issued(p, s, vuz);
    hide Issued;
    PipeFreeDetermines(p, s, vuz, r, v);
  }

  /** Whichever ok row of the hash is picked, it carries a token of this record. */
  lemma PickedRowCarries(cfg: Config, key: seq<byte>, w: World, s: Student, vuz: Uuid, k: RowKey)
    returns (sk: PrivateKey, t: Stamp)
    requires DeployedWith(cfg, key) && Inv(cfg, w) && PipeFree(s) && !Blank(s.number)
    requires k in w.db.results && w.db.results[k].status == Ok && w.db.results[k].hash == Some(IssuedHash(cfg.p, s, vuz))
    requires CollisionFree(cfg.p, R.HashedIn(cfg.p, w.uploads) + {Issued(cfg.p, s, vuz), SaltInput(vuz, s.number)})
    ensures ValidStamp(t) && k in w.db.results && w.db.results[k].token == Some(IssueToken(cfg.p, key, sk, t, s, vuz))
    ensures V.Registered(cfg.p, w.db.registry, s, vuz) && V.UniqueHashes(w.db.registry) && V.UniqueCodes(w.db.universities)
    ensures vuz in w.db.universities && V.Joined(w.db, RegistryKey(vuz, s.number))
  {
    hide *;
    DeployedLaws(cfg, key);
    RowRecord(cfg, w, k);
    sk, t := OkRowIsIssued(cfg, key, w, k);
    StoredMeans(cfg.p, key, w.db, k, sk, t);
    SameHashSameRecord(cfg.p, w.uploads, s, vuz, k.batch, k.index);
  }

  lemma TrimmedHashes(p: Primitives, s: Student, vuz: Uuid, hashed: set<string>)
    requires AllTrimmed(s) && CollisionFree(p, hashed) && Issued(p, s, vuz) in hashed
    ensures CollisionFree(p, V.HashedFor(p, s, vuz))
  {
    V.TrimAllTrimmed(s);
  }

  /** What `Search` shows of the answer of `VerifyPayload`. */
  function Shown(a: V.VerifyResponse): V.SearchResponse {
    V.SearchResponse(a.valid, a.status, a.university, a.code, a.year, a.specialty, a.degree, a.faculty)
  }

  /** The same without year, specialty, degree and faculty. */
  function ShownBare(a: V.VerifyResponse): V.SearchResponse {
    Shown(a).(year := None, specialty := None, degree := None, faculty := None)
  }

  /** Two read paths, one answer: for a token the worker issued for a registered, trimmed, complete, '|'-free record,
      `VerifyPayload` and `Search` by code and number agree exactly if the lookup of `Search` finds an ok row of the
      hash, whichever it picks among re-uploads. If there is none they still agree on validity, status and
      university, but `Search` answers without year, specialty, degree and faculty. */
  lemma {:induction false} TwoReadPathsAgree(cfg: Config, key: seq<byte>, actions: seq<Action>, sk: PrivateKey, t: Stamp,
                                             s: Student, vuz: Uuid, pick: Option<RowKey>, other: Option<RowKey>)
    requires DeployedWith(cfg, key) && ValidStamp(t) && V.KeyMatches(cfg.p, Run(cfg, INITIAL, actions).db.universities, vuz, sk)
    requires AllTrimmed(s) && Complete(s) && PipeFree(s) && !Blank(s.number)
    requires var code := Run(cfg, INITIAL, actions).db.universities[vuz].code; Trim(code) == code != ""
    requires V.PickedRow(Run(cfg, INITIAL, actions).db, IssuedHash(cfg.p, s, vuz), pick)
    requires pick.None? ==> V.Registered(cfg.p, Run(cfg, INITIAL, actions).db.registry, s, vuz)
    requires CollisionFree(cfg.p, R.HashedIn(cfg.p, Run(cfg, INITIAL, actions).uploads) + {Issued(cfg.p, s, vuz), SaltInput(vuz, s.number)})
    ensures var db := Run(cfg, INITIAL, actions).db;
            var answer := V.VerifyPayload(cfg.p, db, key, IssueToken(cfg.p, key, sk, t, s, vuz), other);
            var found := V.Search(cfg.p, db, key, db.universities[vuz].code, s.number, pick);
            && V.Joined(db, RegistryKey(vuz, s.number))
            && answer == Success(V.AnswerFor(cfg.p, db, s, vuz)) && found.Success?
            && (found.value == Shown(answer.value) <==> pick.Some?)
            && (pick.None? ==> found.value == ShownBare(answer.value))
  {
    hide *;
    var w := Run(cfg, INITIAL, actions);
    DeployedLaws(cfg, key);
    Reachable(cfg, actions);
    TablesAreUnique(cfg, w);
    TrimmedNumber(s);
    TrimmedHashes(cfg.p, s, vuz, R.HashedIn(cfg.p, w.uploads) + {Issued(cfg.p, s, vuz), SaltInput(vuz, s.number)});
    if pick.Some? {
      PickedMeans(w.db, IssuedHash(cfg.p, s, vuz), pick.value);
      var sk2, t2 := PickedRowCarries(cfg, key, w, s, vuz, pick.value);
      SearchAnswers(cfg.p, w.db, key, sk2, t2, s, vuz, pick.value);
    } else {
      RegisteredIsJoined(cfg.p, w.db, s, vuz, sk);
      SearchWithoutToken(cfg.p, w.db, key, s, vuz);
    }
    V.IssueThenVerify(cfg.p, w.db, key, sk, t, s, vuz, other);
    ShownFields(cfg.p, w.db, s, vuz);
  }

  lemma TablesAreUnique(cfg: Config, w: World)
    requires Inv(cfg, w)
    ensures V.UniqueHashes(w.db.registry) && V.UniqueCodes(w.db.universities)
  {
  }

  lemma RegisteredIsJoined(p: Primitives, db: Db, s: Student, vuz: Uuid, sk: PrivateKey)
    requires V.Registered(p, db.registry, s, vuz) && V.KeyMatches(p, db.universities, vuz, sk)
    ensures V.Joined(db, RegistryKey(vuz, s.number)) && vuz in db.universities
  {
  }

  lemma ShownFields(p: Primitives, db: Db, s: Student, vuz: Uuid)
    requires V.Joined(db, RegistryKey(vuz, s.number))
    ensures var a := V.AnswerFor(p, db, s, vuz);
            && Shown(a) == V.SearchResponse(a.valid, a.status, a.university, a.code, a.year, a.specialty, a.degree, a.faculty)
            && ShownBare(a) == V.SearchResponse(a.valid, a.status, a.university, a.code, None, None, None, None)
            && ShownBare(a) != Shown(a) && a.year == Some(s.year)
  {
  }

  lemma PickedMeans(db: Db, hash: string, k: RowKey)
    requires V.PickedRow(db, hash, Some(k))
    ensures k in db.results && db.results[k].status == Ok && db.results[k].hash == Some(hash)
  {
  }

  lemma TrimmedNumber(s: Student)
    requires AllTrimmed(s)
    ensures Trim(s.number) == s.number
  {
  }

  // ---- the gateway's persist path ----

  /** A worker result with its error text as the gateway would store it. */
  function Trimmed(m: Message): Message {
    if m.status == Ok then m else m.(error := Some(StringOrDefault(m.error, "processing error")))
  }

  /** Two persist paths, one meaning: if the row of a worker's result were missing, the gateway's transaction
      would leave exactly the tables the worker's leaves, up to trimming of the error text. */
  lemma {:induction false} PersistPathsAgree(cfg: Config, key: seq<byte>, db: Db, uploads: Uploads, m: Message, now: int)
    requires DeployedWith(cfg, key) && MessageOk(cfg, db, uploads, m) && m.vuz in db.universities
    ensures GatewayApply(db, GatewayParser(cfg.p, key), m, now) == Persist(db, Trimmed(m), now)
  {
    hide DeployedWith;
    hide MessageOk;
    if m.status == Ok {
      OkVerdict(cfg, key, db, uploads, m);
    }
  }

  /** The same for any result on the topic of a reachable world, in any tables with its registry and universities. */
  lemma {:induction false} PublishedResultsAgree(cfg: Config, key: seq<byte>, actions: seq<Action>, offset: nat, db: Db, now: int)
    requires DeployedWith(cfg, key)
    requires var w := Run(cfg, INITIAL, actions);
             && offset < |w.results| && w.results[offset].vuz in w.db.universities
             && db.registry == w.db.registry && db.universities == w.db.universities
    ensures var m := Run(cfg, INITIAL, actions).results[offset];
            GatewayApply(db, GatewayParser(cfg.p, key), m, now) == Persist(db, Trimmed(m), now)
  {
    hide *;
    var w := Run(cfg, INITIAL, actions);
    DeployedLaws(cfg, key);
    Reachable(cfg, actions);
    ResultIsMessage(cfg, w, offset, db);
    PersistPathsAgree(cfg, key, db, w.uploads, w.results[offset], now);
  }

  lemma ResultIsMessage(cfg: Config, w: World, offset: nat, db: Db)
    requires Inv(cfg, w) && offset < |w.results| && db.registry == w.db.registry && db.universities == w.db.universities
    ensures MessageOk(cfg, db, w.uploads, w.results[offset])
  {
    assert MessageOk(cfg, w.db, w.uploads, w.results[offset]);
  }

  lemma RegistersAgain(parse: string -> Option<Parsed>, m: Message, number: string)
    requires m.status == Ok && m.token.Some? && !Blank(m.hash) && !Blank(number)
    requires parse(m.token.value) == Some(Parsed(m.vuz, number))
    ensures GatewayVerdict(parse, m) == Register(RegistryKey(m.vuz, number), m.hash, m.token)
  {
  }

  lemma ParsesBack(p: Primitives, key: seq<byte>, sk: PrivateKey, t: Stamp, s: Student, vuz: Uuid)
    requires Lawful(p) && ValidStamp(t)
    ensures GatewayParser(p, key)(IssueToken(p, key, sk, t, s, vuz)) == Some(Parsed(vuz, s.number))
  {
    GatewayReadsToken(p, key, sk, t, s, vuz);
  }

  lemma OkVerdict(cfg: Config, key: seq<byte>, db: Db, uploads: Uploads, m: Message)
    requires DeployedWith(cfg, key) && MessageOk(cfg, db, uploads, m) && m.vuz in db.universities && m.status == Ok
    ensures var k := RegistryKey(m.vuz, uploads[m.batch].records[m.index].number);
            && GatewayVerdict(GatewayParser(cfg.p, key), m) == Register(k, m.hash, m.token)
            && k in db.registry && db.registry[k].hash == m.hash
  {
    hide GatewayVerdict;
    hide GatewayParser;
    hide IssueToken;
    hide Trim;
    var s := uploads[m.batch].records[m.index];
    var sk, t :| ValidStamp(t) && V.KeyMatches(cfg.p, db.universities, m.vuz, sk) && m.token.value == cfg.issue(sk, t, s, m.vuz);
    assert m.hash == IssuedHash(cfg.p, s, m.vuz);
    HexIsTrimmed(m.hash);
    ParsesBack(cfg.p, key, sk, t, s, m.vuz);
    RegistersAgain(GatewayParser(cfg.p, key), m, s.number);
  }

  // ---- downloads ----

  function TokenDecoder(p: Primitives, key: seq<byte>): Decoder {
    (token: string) => GatewayParse(p, key, token)
  }

  /** The uploaded record as its download row shows it: as it is, but blank fields of an ok row show as "" if one of its
      fields is empty, for then the token is read. */
  function Downloaded(s: Student, row: Row): Fields {
    if row.status == Ok && ("" in [s.fullName, s.number, s.specialty, s.degree, s.faculty] || s.year == 0) then Tidied(FieldsOf(s))
    else FieldsOf(s)
  }

  lemma EmptyFields(s: Student)
    ensures Incomplete(FieldsOf(s)) <==> "" in [s.fullName, s.number, s.specialty, s.degree, s.faculty] || s.year == 0
  {
    var texts := [s.fullName, s.number, s.specialty, s.degree, s.faculty];
    assert texts[0] == s.fullName && texts[1] == s.number && texts[2] == s.specialty && texts[3] == s.degree && texts[4] == s.faculty;
  }

  lemma ErrorRowHasNoToken(cfg: Config, w: World, k: RowKey)
    requires Inv(cfg, w) && k in w.db.results && w.db.results[k].status == Error
    ensures w.db.results[k].token.None?
  {
    assert RowOk(cfg, w.db, k);
  }

  lemma ReadFromToken(p: Primitives, key: seq<byte>, sk: PrivateKey, t: Stamp, s: Student, vuz: Uuid)
    requires Lawful(p) && ValidStamp(t)
    ensures var token := IssueToken(p, key, sk, t, s, vuz);
            && !Blank(token) && GatewayParse(p, key, token).Some?
            && DocumentFields(GatewayParse(p, key, token).value.1) == FieldsOf(s).(fullName := Trim(s.fullName))
            && FillFrom(FieldsOf(s), DocumentFields(GatewayParse(p, key, token).value.1)) == Tidied(FieldsOf(s))
  {
    TokenTrimmed(p, BuildQrClaims(p, key, t.nonce, t.iat, s, vuz), sk);
    GatewayReadsToken(p, key, sk, t, s, vuz);
    FallbackOnlyTidies(s, GatewayParse(p, key, IssueToken(p, key, sk, t, s, vuz)).value.1);
  }

  /** Download alignment: in every reachable world each row of a batch download carries the record uploaded at
      its index, blank fields tidied to "" when an ok row falls back to its token, and reading the token, which
      never fails, would yield the same fields up to trimming of the name. */
  lemma {:induction false} DownloadAligned(cfg: Config, key: seq<byte>, actions: seq<Action>, k: RowKey)
    requires DeployedWith(cfg, key) && k in Run(cfg, INITIAL, actions).db.results
    ensures var w := Run(cfg, INITIAL, actions);
            var decode := TokenDecoder(cfg.p, key);
            var row := w.db.results[k];
            var item := ItemFor(decode, w.db.registry, StoredRecord(w.db, k), k.index, row);
            && k.batch in w.uploads && k.index < |w.uploads[k.batch].records|
            && var uploaded := FieldsOf(w.uploads[k.batch].records[k.index]);
            && item.Some? && item.value.index == k.index
            && item.value.fields == Downloaded(w.uploads[k.batch].records[k.index], row)
            && (row.status == Ok ==>
                  && row.token.Some? && decode(row.token.value).Some?
                  && DocumentFields(decode(row.token.value).value.1) == uploaded.(fullName := Trim(uploaded.fullName)))
  {
    hide *;
    var w := Run(cfg, INITIAL, actions);
    DeployedLaws(cfg, key);
    Reachable(cfg, actions);
    RowRecord(cfg, w, k);
    StoredIs(w.db, k);
    if w.db.results[k].status == Ok {
      var sk, t := OkRowIsIssued(cfg, key, w, k);
      IssuedRowAligned(cfg.p, key, w.db, k, sk, t);
    } else {
      ErrorRowHasNoToken(cfg, w, k);
      ErrorRowAligned(TokenDecoder(cfg.p, key), w.db.registry, w.db.payloads[k], k.index, w.db.results[k]);
    }
  }

  /** Indexes that ascend and stay below their number are all the indexes. */
  lemma {:induction false} AscendingFills(items: seq<Item>, i: nat)
    requires forall i, j | 0 <= i < j < |items| :: items[i].index < items[j].index
    requires forall i | 0 <= i < |items| :: items[i].index < |items|
    requires i < |items|
    ensures items[i].index == i
  {
    AtLeastPosition(items, i);
    AtMostPosition(items, i);
  }

  lemma {:induction false} AtLeastPosition(items: seq<Item>, i: nat)
    requires i < |items| && forall i, j | 0 <= i < j < |items| :: items[i].index < items[j].index
    ensures items[i].index >= i
  {
    if i > 0 {
      AtLeastPosition(items, i - 1);
    }
  }

  lemma {:induction false} AtMostPosition(items: seq<Item>, i: nat)
    requires i < |items| && forall i, j | 0 <= i < j < |items| :: items[i].index < items[j].index
    requires items[|items| - 1].index < |items|
    ensures items[i].index <= i
    decreases |items| - i
  {
    if i < |items| - 1 {
      AtMostPosition(items, i + 1);
    }
  }

  /** Hash, token and error of a download row are those of the result row; an error row shows its error, and an ok row
      whether its diploma, registered under `key`, is revoked. */
  predicate Shows(item: Item, row: Row, registry: Registry, key: RegistryKey) {
    && item.hash == (if row.hash.Some? then row.hash.value else "")
    && item.qr == (if row.token.Some? then row.token.value else "")
    && item.error == row.error
    && (row.status == Error ==> item.status == ItemError)
    && (row.status == Ok ==> key in registry && item.status == if registry[key].revoked then DiplomaRevoked else DiplomaActive)
  }

  lemma ItemShows(cfg: Config, key: seq<byte>, w: World, k: RowKey)
    requires DeployedWith(cfg, key) && Inv(cfg, w) && k in w.db.results && Rep.ItemAt(TokenDecoder(cfg.p, key), w.db, k).Some?
    ensures k.batch in w.uploads && k.index < |w.uploads[k.batch].records|
    ensures Shows(Rep.ItemAt(TokenDecoder(cfg.p, key), w.db, k).value, w.db.results[k], w.db.registry,
                  RegistryKey(w.uploads[k.batch].vuz, w.uploads[k.batch].records[k.index].number))
  {
    hide Inv;
    hide TokenDecoder;
    hide IssueToken;
    hide IssuedHash;
    hide StatusOf;
    hide WithFallback;
    var row, db := w.db.results[k], w.db;
    RowRecord(cfg, w, k);
    TablesAreUnique(cfg, w);
    StatusExactly(db.registry, row);
    if row.status == Ok {
      var sk, t := OkRowIsIssued(cfg, key, w, k);
      StoredMeans(cfg.p, key, db, k, sk, t);
      TokenShown(cfg.p, key, sk, t, db.payloads[k], db.batches[k.batch].vuz);
    } else {
      ErrorRowHasNoToken(cfg, w, k);
    }
  }

  lemma TokenShown(p: Primitives, key: seq<byte>, sk: PrivateKey, t: Stamp, s: Student, vuz: Uuid)
    ensures !Blank(IssueToken(p, key, sk, t, s, vuz))
  {
    hide Trim;
    TokenTrimmed(p, BuildQrClaims(p, key, t.nonce, t.iat, s, vuz), sk);
  }

  /** Downloads in every reachable world: the download of a university's own batch never fails, has one item per row
      counted, each with the record uploaded at its index and the state of its result and its diploma, and for a full batch
      is the whole upload in order. */
  lemma {:induction false} DownloadComplete(cfg: Config, key: seq<byte>, actions: seq<Action>, b: BatchId, items: Option<seq<Item>>)
    requires DeployedWith(cfg, key) && b in Run(cfg, INITIAL, actions).db.batches
    requires var db := Run(cfg, INITIAL, actions).db;
             Rep.IsDownload(TokenDecoder(cfg.p, key), db, b, db.batches[b].vuz, items)
    ensures var w := Run(cfg, INITIAL, actions);
            && items.Some? && |items.value| == w.db.batches[b].processed && b in w.uploads
            && (forall i | 0 <= i < |items.value| ::
                  var k := RowKey(b, items.value[i].index);
                  && k in w.db.results && k.index < |w.uploads[b].records|
                  && items.value[i].fields == Downloaded(w.uploads[b].records[k.index], w.db.results[k])
                  && Shows(items.value[i], w.db.results[k], w.db.registry,
                           RegistryKey(w.uploads[b].vuz, w.uploads[b].records[k.index].number)))
            && (Closed(w.db, b) ==>
                  && |items.value| == |w.uploads[b].records|
                  && forall i | 0 <= i < |items.value| :: items.value[i].index == i)
  {
    hide DeployedWith;
    hide Inv;
    hide Run;
    hide TokenDecoder;
    hide Rep.ItemAt;
    hide Shows;
    hide Downloaded;
    var w, decode := Run(cfg, INITIAL, actions), TokenDecoder(cfg.p, key);
    DeployedLaws(cfg, key);
    Reachable(cfg, actions);
    BatchUploaded(cfg, w, b);
    forall k | k in w.db.results && k.batch == b
      ensures k.index < |w.uploads[b].records| && Rep.ItemAt(decode, w.db, k).Some?
              && Rep.ItemAt(decode, w.db, k).value.fields == Downloaded(w.uploads[b].records[k.index], w.db.results[k])
              && Shows(Rep.ItemAt(decode, w.db, k).value, w.db.results[k], w.db.registry,
                       RegistryKey(w.uploads[b].vuz, w.uploads[b].records[k.index].number))
    {
      ItemAligned(cfg, key, actions, k);
      ItemShows(cfg, key, w, k);
    }
    if Closed(w.db, b) {
      forall i | 0 <= i < |items.value| ensures items.value[i].index == i {
        AscendingFills(items.value, i);
      }
    }
  }

  lemma ItemAligned(cfg: Config, key: seq<byte>, actions: seq<Action>, k: RowKey)
    requires DeployedWith(cfg, key) && k in Run(cfg, INITIAL, actions).db.results
    ensures var w := Run(cfg, INITIAL, actions);
            var item := Rep.ItemAt(TokenDecoder(cfg.p, key), w.db, k);
            && k.batch in w.uploads && k.index < |w.uploads[k.batch].records| && item.Some?
            && item.value.fields == Downloaded(w.uploads[k.batch].records[k.index], w.db.results[k])
  {
    hide DeployedWith;
    hide Run;
    hide TokenDecoder;
    hide ItemFor;
    DownloadAligned(cfg, key, actions, k);
  }

  lemma BatchUploaded(cfg: Config, w: World, b: BatchId)
    requires Inv(cfg, w) && b in w.db.batches
    ensures b in w.uploads && w.db.batches[b].total == |w.uploads[b].records|
    ensures w.db.batches[b].processed == |RowsOf(w.db.results, b)| <= w.db.batches[b].total
  {
    RowsFit(w.db.results, w.db.batches, b);
  }

  lemma StoredIs(db: Db, k: RowKey)
    requires k in db.payloads
    ensures StoredRecord(db, k) == Some(db.payloads[k])
  {
  }

  lemma ErrorRowAligned(decode: Decoder, registry: Registry, s: Student, index: nat, row: Row)
    requires row.token.None? && row.status == Error
    ensures var item := ItemFor(decode, registry, Some(s), index, row);
            item.Some? && item.value.index == index && item.value.fields == Downloaded(s, row)
  {
  }

  lemma OkRowAligned(decode: Decoder, registry: Registry, s: Student, index: nat, row: Row)
    requires row.token.Some? && !Blank(row.token.value) && decode(row.token.value).Some?
    requires FillFrom(FieldsOf(s), DocumentFields(decode(row.token.value).value.1)) == Tidied(FieldsOf(s))
    ensures var item := ItemFor(decode, registry, Some(s), index, row);
            && item.Some? && item.value.index == index
            && item.value.fields == if Incomplete(FieldsOf(s)) then Tidied(FieldsOf(s)) else FieldsOf(s)
  {
  }

  lemma IssuedRowAligned(p: Primitives, key: seq<byte>, db: Db, k: RowKey, sk: PrivateKey, t: Stamp)
    requires Lawful(p) && StoredIssue(p, key, db, k, sk, t) && db.results[k].status == Ok
    ensures k in db.results && k in db.payloads
    ensures var decode := TokenDecoder(p, key);
            var item := ItemFor(decode, db.registry, Some(db.payloads[k]), k.index, db.results[k]);
            var uploaded := FieldsOf(db.payloads[k]);
            && item.Some? && item.value.index == k.index
            && item.value.fields == Downloaded(db.payloads[k], db.results[k])
            && db.results[k].token.Some? && decode(db.results[k].token.value).Some?
            && DocumentFields(decode(db.results[k].token.value).value.1) == uploaded.(fullName := Trim(uploaded.fullName))
  {
    hide IssueToken;
    hide GatewayParse;
    hide ItemFor;
    ReadFromToken(p, key, sk, t, db.payloads[k], db.batches[k.batch].vuz);
    OkRowAligned(TokenDecoder(p, key), db.registry, db.payloads[k], k.index, db.results[k]);
    EmptyFields(db.payloads[k]);
  }
}
