/** Public verification (verification_service.go, verification_repository.go) and what it makes of the tokens
    the worker issues. */
module Verification {
  import opened Wrappers
  import opened Text
  import opened Crypto
  import opened Canonical
  import opened Token
  import opened Tables

  datatype DiplomaStatus = Active | RevokedDiploma | NotFound

  datatype DiplomaRecord = DiplomaRecord(
    hash: string, number: string, status: DiplomaStatus, revokedAt: Option<int>, code: string, name: string,
    year: Option<int>, specialty: Option<string>, degree: Option<string>, faculty: Option<string>, qr: Option<string>)

  datatype Reason = Undecodable | MissingVuz | KeyNotFound | BadSignature | BadOuterClaims | Undecryptable
                  | Unhashable | HashMismatch | SubMismatch

  datatype VerifyError = InvalidInput | InvalidPayload(reason: Reason) | LookupFailed

  datatype VerifyResponse = VerifyResponse(
    valid: bool, status: DiplomaStatus, hash: string, number: string, university: string, code: string,
    year: Option<int>, specialty: Option<string>, degree: Option<string>, faculty: Option<string>, revokedAt: Option<int>)

  datatype SearchResponse = SearchResponse(
    valid: bool, status: DiplomaStatus, university: string, code: string,
    year: Option<int>, specialty: Option<string>, degree: Option<string>, faculty: Option<string>)

  // ---- lookups ----

  predicate IsOkRowFor(db: Db, hash: string, k: RowKey) {
    k in db.results && db.results[k].status == Ok && db.results[k].hash == Some(hash)
  }

  /** The lateral join takes one ok row of the hash if there is any; which one depends on insertion times. */
  ghost predicate PickedRow(db: Db, hash: string, pick: Option<RowKey>) {
    match pick
    case Some(k) => IsOkRowFor(db, hash, k)
    case None => forall k :: !IsOkRowFor(db, hash, k)
  }

  function RecordAt(db: Db, key: RegistryKey, pick: Option<RowKey>): DiplomaRecord
    requires key in db.registry && key.vuz in db.universities
  {
    var e, u := db.registry[key], db.universities[key.vuz];
    DiplomaRecord(e.hash, key.number, if e.revoked then RevokedDiploma else Active, e.revokedAt, u.code, u.name,
                  None, None, None, None,
                  if pick.Some? && pick.value in db.results then db.results[pick.value].token else None)
  }

  predicate Joined(db: Db, key: RegistryKey) {
    key in db.registry && key.vuz in db.universities
  }

  ghost function FindByHash(db: Db, hash: string): Option<RegistryKey> {
    if k :| Joined(db, k) && db.registry[k].hash == hash then Some(k) else None
  }

  ghost function FindByNumber(db: Db, code: string, number: string): Option<RegistryKey> {
    if k :| Joined(db, k) && db.universities[k.vuz].code == code && k.number == number then Some(k) else None
  }

  // ---- service ----

  function LowerCase(c: char): char {
    if 'A' <= c <= 'Z' then c - 'A' + 'a' else c
  }

  /** `strings.EqualFold`; one side is always a hexadecimal digest, so only ASCII letters can fold. */
  predicate EqualFold(a: string, b: string) {
    |a| == |b| && forall i | 0 <= i < |a| :: LowerCase(a[i]) == LowerCase(b[i])
  }

  function NonBlank(s: string): Option<string> {
    if Blank(s) then None else Some(s)
  }

  function OrElse<T>(a: Option<T>, b: Option<T>): Option<T> {
    if a.Some? then a else b
  }

  /** `applyEncryptedPayload`: fills the fields the record lacks. */
  function ApplyPayload(r: DiplomaRecord, d: StudentDocument): DiplomaRecord {
    r.(number := if Blank(r.number) then d.number else r.number,
       year := OrElse(r.year, if d.year != 0 then Some(d.year) else None),
       specialty := OrElse(r.specialty, NonBlank(d.specialty)),
       degree := OrElse(r.degree, NonBlank(d.degree)),
       faculty := OrElse(r.faculty, NonBlank(d.faculty)))
  }

  function ToVerifyResponse(r: DiplomaRecord): VerifyResponse {
    VerifyResponse(r.status == Active, r.status, r.hash, r.number, r.name, r.code, r.year, r.specialty, r.degree,
                   r.faculty, r.revokedAt)
  }

  /** Everything `VerifyPayload` checks before it looks the hash up. */
  function CheckToken(p: Primitives, db: Db, key: seq<byte>, token: string): Result<(string, StudentDocument), VerifyError> {
    if token == "" then Failure(InvalidInput)
    else
      var claims := DecodeUnverifiedJWT(p, token);
      if claims.None? then Failure(InvalidPayload(Undecodable))
      else
        var vuz := StringClaim(claims.value.vuzId);
        if vuz.None? then Failure(InvalidPayload(MissingVuz))
        else if !ValidUuid(vuz.value) then Failure(LookupFailed)
        else if vuz.value !in db.universities || db.universities[vuz.value].publicKey.None? then Failure(InvalidPayload(KeyNotFound))
        else if !VerifyEd25519JWT(p, token, db.universities[vuz.value].publicKey.value) then Failure(InvalidPayload(BadSignature))
        else
          var outer := ExtractOuterClaims(claims.value);
          if outer.None? then Failure(InvalidPayload(BadOuterClaims))
          else CheckEnvelope(p, key, outer.value)
  }

  function CheckEnvelope(p: Primitives, key: seq<byte>, outer: OuterClaims): Result<(string, StudentDocument), VerifyError> {
    var d := DecryptDiplomaPayload(p, outer.enc, key);
    if d.None? then Failure(InvalidPayload(Undecryptable))
    else
      var hash := HashDiplomaInput(p, HashInputOf(d.value, outer.vuz));
      if hash.Failure? then Failure(InvalidPayload(Unhashable))
      else if !EqualFold(outer.hash, hash.value) then Failure(InvalidPayload(HashMismatch))
      else if !EqualFold(outer.sub, hash.value) then Failure(InvalidPayload(SubMismatch))
      else Success((hash.value, d.value))
  }

  ghost function VerifyPayload(p: Primitives, db: Db, key: seq<byte>, input: string, pick: Option<RowKey>)
    : Result<VerifyResponse, VerifyError>
  {
    var checked :- CheckToken(p, db, key, Trim(input));
    var found := FindByHash(db, checked.0);
    if found.None? then
      Success(VerifyResponse(false, NotFound, checked.0, "", "", "", None, None, None, None, None))
    else Success(ToVerifyResponse(ApplyPayload(RecordAt(db, found.value, pick), checked.1)))
  }

  /** `enrichRecordFromStoredQR`. */
  function Enrich(p: Primitives, key: seq<byte>, r: DiplomaRecord): Result<DiplomaRecord, VerifyError> {
    if r.qr.None? || Blank(r.qr.value) then Success(r)
    else if r.year.Some? && r.specialty.Some? && r.degree.Some? && r.faculty.Some? then Success(r)
    else
      var claims := DecodeUnverifiedJWT(p, r.qr.value);
      if claims.None? || ExtractOuterClaims(claims.value).None? then Failure(InvalidPayload(BadOuterClaims))
      else
        var d := DecryptDiplomaPayload(p, ExtractOuterClaims(claims.value).value.enc, key);
        if d.None? then Failure(InvalidPayload(Undecryptable)) else Success(ApplyPayload(r, d.value))
  }

  ghost function Search(p: Primitives, db: Db, key: seq<byte>, code: string, number: string, pick: Option<RowKey>)
    : Result<SearchResponse, VerifyError>
  {
    if Blank(code) || Blank(number) then Failure(InvalidInput)
    else
      var found := FindByNumber(db, Trim(code), Trim(number));
      if found.None? then Success(SearchResponse(false, NotFound, "", "", None, None, None, None))
      else
        var r :- Enrich(p, key, RecordAt(db, found.value, pick));
        Success(SearchResponse(r.status == Active, r.status, r.name, r.code, r.year, r.specialty, r.degree, r.faculty))
  }

  // ---- issue, then verify ----

  /** The university's public key is the one the worker's private key derives. */
  predicate KeyMatches(p: Primitives, universities: Universities, vuz: Uuid, sk: PrivateKey) {
    vuz in universities && universities[vuz].publicKey == Some(p.publicOf(sk))
  }

  predicate Registered(p: Primitives, registry: Registry, s: Student, vuz: Uuid) {
    var k := RegistryKey(vuz, s.number);
    k in registry && registry[k].hash == IssuedHash(p, s, vuz)
  }

  /** A hash is the primary key of the registry. */
  ghost predicate UniqueHashes(registry: Registry) {
    forall a, b | a in registry && b in registry && registry[a].hash == registry[b].hash :: a == b
  }

  /** A code belongs to one university. */
  ghost predicate UniqueCodes(universities: Universities) {
    forall u, v | u in universities && v in universities && universities[u].code == universities[v].code :: u == v
  }

  /** The strings hashed when `s` is issued and its token is checked. */
  function HashedFor(p: Primitives, s: Student, vuz: Uuid): set<string> {
    {Issued(p, s, vuz), Issued(p, TrimAll(s), vuz)}
  }

  lemma EqualFoldOfDigests(a: string, b: string)
    requires IsDigest(a) && IsDigest(b)
    ensures EqualFold(a, b) <==> a == b
  {
    forall i | 0 <= i < 64 ensures LowerCase(a[i]) == a[i] && LowerCase(b[i]) == b[i] {
      assert IsLowerHex(a[i]) && IsLowerHex(b[i]);
    }
  }

  /** The public key accepts what `sk` signs under these claims. */
  predicate Accepts(p: Primitives, publicKey: PublicKey, c: QrClaims, sk: PrivateKey) {
    p.accepts(publicKey, SigningInput(p, c), p.sign(sk, SigningInput(p, c)))
  }

  /** A token with worker claims, whoever signed it: if the university's public key accepts the signature, what remains
      is the envelope. */
  lemma TokenChecksToEnvelope(p: Primitives, db: Db, key: seq<byte>, sk: PrivateKey, t: Stamp, s: Student, vuz: Uuid)
    requires Lawful(p) && ValidStamp(t) && vuz in db.universities && db.universities[vuz].publicKey.Some?
    ensures var token := IssueToken(p, key, sk, t, s, vuz);
            var c := BuildQrClaims(p, key, t.nonce, t.iat, s, vuz);
            && Trim(token) == token
            && CheckToken(p, db, key, token) ==
                 if Accepts(p, db.universities[vuz].publicKey.value, c, sk)
                 then CheckEnvelope(p, key, OuterClaims(c.hash, c.hash, c.vuz, c.enc, c.iat))
                 else Failure(InvalidPayload(BadSignature))
  {
    var c := BuildQrClaims(p, key, t.nonce, t.iat, s, vuz);
    TokenReadsBack(p, c, sk);
    SignatureDecides(p, c, sk, db.universities[vuz].publicKey.value);
    TokenTrimmed(p, c, sk);
    EnvelopeReadsBack(p, key, t.nonce, s, p.sha(SaltInput(vuz, s.number)));
    OuterClaimsReadBack(c);
  }

  /** The string the verifier hashes is the issued one exactly for trimmed, complete records. */
  lemma HashesMatch(p: Primitives, s: Student, vuz: Uuid)
    requires LawfulHash(p) && !Blank(s.number) && Complete(s)
    requires CollisionFree(p, HashedFor(p, s, vuz))
    ensures var salt := p.sha(SaltInput(vuz, s.number));
            EqualFold(IssuedHash(p, s, vuz), p.sha(CanonicalString(TrimAll(s), vuz, salt))) <==> AllTrimmed(s)
  {
    var salt := p.sha(SaltInput(vuz, s.number));
    SidesAgree(s, vuz, salt);
    TrimAllTrimmed(s);
    RawIsTrimmed(s, vuz, salt);
    assert Issued(p, TrimAll(s), vuz) == CanonicalString(TrimAll(s), vuz, salt);
    EqualFoldOfDigests(IssuedHash(p, s, vuz), p.sha(CanonicalString(TrimAll(s), vuz, salt)));
  }

  lemma RawIsTrimmed(s: Student, vuz: Uuid, salt: string)
    requires IsDigest(salt) && !Blank(s.number) && Complete(s)
    ensures BuildRawDiplomaString(InputFor(s, vuz, salt)) == Success(CanonicalString(TrimAll(s), vuz, salt))
  {
    HexIsTrimmed(vuz);
    HexIsTrimmed(salt);
  }

  /** The envelope of a worker token is accepted exactly for trimmed, complete records. */
  lemma EnvelopeVerdict(p: Primitives, key: seq<byte>, c: OuterClaims, s: Student, vuz: Uuid)
    requires LawfulHash(p) && !Blank(s.number)
    requires CollisionFree(p, HashedFor(p, s, vuz))
    requires c.sub == c.hash == IssuedHash(p, s, vuz) && c.vuz == vuz
    requires DecryptDiplomaPayload(p, c.enc, key)
          == if Complete(s) then Some(DocumentOf(s, p.sha(SaltInput(vuz, s.number))).(fullName := Trim(s.fullName))) else None
    ensures CheckEnvelope(p, key, c).Success? <==> AllTrimmed(s) && Complete(s)
    ensures AllTrimmed(s) && Complete(s) ==>
              CheckEnvelope(p, key, c) == Success((IssuedHash(p, s, vuz), DocumentOf(s, p.sha(SaltInput(vuz, s.number)))))
  {
    if Complete(s) {
      VerifierHashes(p, s, vuz, p.sha(SaltInput(vuz, s.number)));
      HashesMatch(p, s, vuz);
      TrimAllTrimmed(s);
    }
  }

  lemma TrimAllTrimmed(s: Student)
    ensures AllTrimmed(TrimAll(s)) && (Complete(s) <==> Complete(TrimAll(s)))
    ensures AllTrimmed(s) ==> TrimAll(s) == s
  {
    TrimIdempotent(s.fullName);
    TrimIdempotent(s.number);
    TrimIdempotent(s.specialty);
    TrimIdempotent(s.degree);
    TrimIdempotent(s.faculty);
  }

  lemma VerifierHashes(p: Primitives, s: Student, vuz: Uuid, salt: string)
    requires IsDigest(salt) && !Blank(s.number) && Complete(s)
    ensures HashDiplomaInput(p, HashInputOf(DocumentOf(s, salt).(fullName := Trim(s.fullName)), vuz))
         == Success(p.sha(CanonicalString(TrimAll(s), vuz, salt)))
  {
    HexIsTrimmed(vuz);
    HexIsTrimmed(salt);
    TrimIdempotent(s.fullName);
  }

  /** What the checks before the lookup make of a token with worker claims: the issued hash and the issued record, or a
      refusal, and a refusal exactly when the university's public key does not accept the signature, a field has outer
      white space or a required field is missing. */
  lemma {:induction false} AnySignatureChecks(p: Primitives, db: Db, key: seq<byte>, sk: PrivateKey, t: Stamp, s: Student, vuz: Uuid)
    requires Lawful(p) && ValidStamp(t) && !Blank(s.number) && vuz in db.universities && db.universities[vuz].publicKey.Some?
    requires CollisionFree(p, HashedFor(p, s, vuz))
    ensures var checked := CheckToken(p, db, key, Trim(IssueToken(p, key, sk, t, s, vuz)));
            var c := BuildQrClaims(p, key, t.nonce, t.iat, s, vuz);
            && (checked.Success? <==> Accepts(p, db.universities[vuz].publicKey.value, c, sk) && AllTrimmed(s) && Complete(s))
            && (checked.Success? ==> checked.value == (IssuedHash(p, s, vuz), DocumentOf(s, p.sha(SaltInput(vuz, s.number)))))
  {
    var salt := p.sha(SaltInput(vuz, s.number));
    var c := BuildQrClaims(p, key, t.nonce, t.iat, s, vuz);
    HexIsTrimmed(salt);
    TokenChecksToEnvelope(p, db, key, sk, t, s, vuz);
    VerifierDecrypts(p, key, t.nonce, s, salt);
    EnvelopeVerdict(p, key, OuterClaims(c.hash, c.hash, c.vuz, c.enc, c.iat), s, vuz);
  }

  /** The same for a token signed with the university's own key. */
  lemma {:induction false} WorkerTokenChecks(p: Primitives, db: Db, key: seq<byte>, sk: PrivateKey, t: Stamp, s: Student, vuz: Uuid)
    requires Lawful(p) && ValidStamp(t) && !Blank(s.number) && KeyMatches(p, db.universities, vuz, sk)
    requires CollisionFree(p, HashedFor(p, s, vuz))
    ensures var checked := CheckToken(p, db, key, Trim(IssueToken(p, key, sk, t, s, vuz)));
            && (checked.Success? <==> AllTrimmed(s) && Complete(s))
            && (checked.Success? ==> checked.value == (IssuedHash(p, s, vuz), DocumentOf(s, p.sha(SaltInput(vuz, s.number)))))
  {
    hide CheckToken;
    AnySignatureChecks(p, db, key, sk, t, s, vuz);
  }

  /** What pubver answers about record `s`: fields in full, blank optional fields absent. */
  function AnswerFor(p: Primitives, db: Db, s: Student, vuz: Uuid): VerifyResponse
    requires Joined(db, RegistryKey(vuz, s.number))
  {
    var e, u := db.registry[RegistryKey(vuz, s.number)], db.universities[vuz];
    VerifyResponse(!e.revoked, if e.revoked then RevokedDiploma else Active, e.hash, s.number, u.name, u.code,
                   Some(s.year), Some(s.specialty), NonBlank(s.degree), NonBlank(s.faculty), e.revokedAt)
  }

  /** Issue, then verify: a token of a registered diploma is answered, truthfully, exactly when no hashed field
      of the record has leading or trailing white space, name and specialty are not blank and the year is not 0.
      Any other token of the worker is refused. */
  lemma {:induction false} IssueThenVerify(p: Primitives, db: Db, key: seq<byte>, sk: PrivateKey, t: Stamp, s: Student, vuz: Uuid,
                        pick: Option<RowKey>)
    requires Lawful(p) && ValidStamp(t) && !Blank(s.number) && KeyMatches(p, db.universities, vuz, sk)
    requires Registered(p, db.registry, s, vuz) && UniqueHashes(db.registry)
    requires CollisionFree(p, HashedFor(p, s, vuz))
    ensures var answer := VerifyPayload(p, db, key, IssueToken(p, key, sk, t, s, vuz), pick);
            && (answer.Success? <==> AllTrimmed(s) && Complete(s))
            && (answer.Success? ==> answer.value == AnswerFor(p, db, s, vuz))
  {
    WorkerTokenChecks(p, db, key, sk, t, s, vuz);
    assert Joined(db, RegistryKey(vuz, s.number));
  }

  /** Whoever signs the claims of a registered, trimmed, complete record: the token is accepted exactly if the public key
      of the university it names accepts the signature. */
  lemma {:induction false} SignatureDecidesAcceptance(p: Primitives, db: Db, key: seq<byte>, sk: PrivateKey, t: Stamp, s: Student,
                                                      vuz: Uuid, pick: Option<RowKey>)
    requires Lawful(p) && ValidStamp(t) && !Blank(s.number) && vuz in db.universities && db.universities[vuz].publicKey.Some?
    requires Registered(p, db.registry, s, vuz) && UniqueHashes(db.registry) && AllTrimmed(s) && Complete(s)
    requires CollisionFree(p, HashedFor(p, s, vuz))
    ensures var answer := VerifyPayload(p, db, key, IssueToken(p, key, sk, t, s, vuz), pick);
            && (answer.Success? <==> Accepts(p, db.universities[vuz].publicKey.value, BuildQrClaims(p, key, t.nonce, t.iat, s, vuz), sk))
            && (answer.Success? ==> answer.value == AnswerFor(p, db, s, vuz))
  {
    hide CheckToken;
    AnySignatureChecks(p, db, key, sk, t, s, vuz);
    assert Joined(db, RegistryKey(vuz, s.number));
  }

  /** The token of a diploma that is not registered, say because its university was deleted and came back, is
      answered as not found, again exactly for trimmed, complete records; any other is refused. */
  lemma {:induction false} IssueUnregistered(p: Primitives, db: Db, key: seq<byte>, sk: PrivateKey, t: Stamp, s: Student, vuz: Uuid,
                                             pick: Option<RowKey>)
    requires Lawful(p) && ValidStamp(t) && !Blank(s.number) && KeyMatches(p, db.universities, vuz, sk)
    requires !HashTaken(db.registry, IssuedHash(p, s, vuz)) && CollisionFree(p, HashedFor(p, s, vuz))
    ensures var answer := VerifyPayload(p, db, key, IssueToken(p, key, sk, t, s, vuz), pick);
            && (answer.Success? <==> AllTrimmed(s) && Complete(s))
            && (answer.Success? ==> !answer.value.valid && answer.value.status == NotFound && answer.value.hash == IssuedHash(p, s, vuz))
  {
    WorkerTokenChecks(p, db, key, sk, t, s, vuz);
  }
}
