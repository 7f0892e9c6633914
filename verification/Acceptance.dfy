/** What an accepted token is: the conditions on its segments, claims, signature and envelope, stated on the
    primitives, and that `VerifyPayload` accepts exactly the tokens that meet them. */
module Acceptance {
  import opened Wrappers
  import opened Text
  import opened Crypto
  import opened Encoding
  import opened Canonical
  import opened Token
  import opened Tables
  import V = Verification

  // ---- claims ----

  /** A claim's text, trimmed; "" if there is none. */
  function Stated(claim: Option<Json>): string {
    if claim.Some? && claim.value.JsonString? then Trim(claim.value.text) else ""
  }

  /** The claims of a token of three segments, before anything is checked. */
  function ClaimsOf(p: Primitives, token: string): Option<Claims> {
    var parts := SplitDots(token);
    if |parts| == 3 && DecodeUrl(parts[1]).Some? then p.readClaims(DecodeUrl(parts[1]).value) else None
  }

  predicate IsInt64(claim: Option<Json>) {
    claim.Some? && claim.value.JsonNumber? && -0x8000_0000_0000_0000 <= claim.value.n <= 0x7fff_ffff_ffff_ffff
  }

  /** Everything the reader of a token needs is stated. */
  predicate Complete(c: Claims) {
    Stated(c.sub) != "" && Stated(c.vuzId) != "" && Stated(c.enc) != "" && IsInt64(c.iat)
  }

  /** The hash a token claims; the subject stands in for it. */
  function ClaimedHash(c: Claims): string {
    if Stated(c.diplomaHash) != "" then Stated(c.diplomaHash) else Stated(c.sub)
  }

  // ---- signature ----

  /** The university's public key accepts the signature over the first two segments, made with EdDSA. */
  predicate SignedFor(p: Primitives, token: string, key: PublicKey) {
    var parts := SplitDots(token);
    && |parts| == 3 && DecodeUrl(parts[0]).Some? && DecodeUrl(parts[2]).Some?
    && p.readAlgorithm(DecodeUrl(parts[0]).value) == Some("EdDSA")
    && p.accepts(key, parts[0] + "." + parts[1], DecodeUrl(parts[2]).value)
  }

  /** Signed by the university it names. */
  predicate Signed(p: Primitives, universities: Universities, token: string) {
    && ClaimsOf(p, token).Some?
    && var vuz := Stated(ClaimsOf(p, token).value.vuzId);
    && vuz in universities && universities[vuz].publicKey.Some? && SignedFor(p, token, universities[vuz].publicKey.value)
  }

  // ---- envelope ----

  /** `raw` is a nonce and a ciphertext with its tag, and opens to the document `w`. */
  predicate Opens(p: Primitives, key: seq<byte>, raw: seq<byte>, w: StudentDocument) {
    && |raw| >= NONCE_SIZE + TAG_SIZE && p.open(key, raw[..NONCE_SIZE], raw[NONCE_SIZE..]).Some?
    && p.readStudent(p.open(key, raw[..NONCE_SIZE], raw[NONCE_SIZE..]).value) == Some(w)
  }

  /** `d` is `w` under its one name: either field may carry it, but not two different ones. */
  predicate OneName(w: StudentDocument, d: StudentDocument) {
    && (Blank(w.fullName) || Blank(w.studentName) || Trim(w.fullName) == Trim(w.studentName))
    && d == w.(fullName := if Blank(w.fullName) then Trim(w.studentName) else Trim(w.fullName), studentName := Trim(w.studentName))
  }

  predicate Required(d: StudentDocument) {
    !Blank(d.fullName) && !Blank(d.number) && !Blank(d.specialty) && d.year >= 1 && !Blank(d.salt)
  }

  /** The envelope `enc` holds the document `d`. */
  ghost predicate Holds(p: Primitives, key: seq<byte>, enc: string, d: StudentDocument) {
    exists w: StudentDocument :: GoDecodeStd(enc).Some? && Opens(p, key, GoDecodeStd(enc).value, w) && OneName(w, d) && Required(d)
  }

  // ---- hash ----

  /** The hash of a document as the verifier recomputes it. */
  function Recomputed(p: Primitives, d: StudentDocument, vuz: string): string
    requires d.year >= 0
  {
    p.sha(Join([Trim(d.number), Trim(d.fullName), Trim(d.specialty), Trim(d.degree), Trim(d.faculty), Itoa(d.year), vuz, Trim(d.salt)]))
  }

  predicate SameLetter(a: char, b: char) {
    a == b || ('A' <= a <= 'Z' && b as int == a as int + 32) || ('A' <= b <= 'Z' && a as int == b as int + 32)
  }

  /** Equal but for the case of letters. */
  predicate Folds(a: string, b: string) {
    |a| == |b| && forall i | 0 <= i < |a| :: SameLetter(a[i], b[i])
  }

  lemma FoldsAgree(a: string, b: string)
    ensures V.EqualFold(a, b) <==> Folds(a, b)
  {
  }

  // ---- acceptance ----

  /** The token is signed by the university it names, holds the document `d`, and claims the hash of that document
      in both its hash claims. */
  ghost predicate Carries(p: Primitives, universities: Universities, key: seq<byte>, token: string, d: StudentDocument) {
    && Signed(p, universities, token)
    && var c := ClaimsOf(p, token).value;
    && Complete(c) && Holds(p, key, Stated(c.enc), d)
    && Folds(ClaimedHash(c), Recomputed(p, d, Stated(c.vuzId))) && Folds(Stated(c.sub), Recomputed(p, d, Stated(c.vuzId)))
  }

  lemma NormalizeExactly(w: StudentDocument, d: StudentDocument)
    ensures Normalize(w) == Some(d) <==> OneName(w, d)
  {
  }

  lemma CheckExactly(w: StudentDocument, d: StudentDocument)
    ensures CheckDocument(w) == Some(d) <==> OneName(w, d) && Required(d)
  {
    hide Normalize;
    hide OneName;
    NormalizeExactly(w, d);
    if Normalize(w).Some? {
      NormalizeExactly(w, Normalize(w).value);
    }
  }

  lemma DecryptExactly(p: Primitives, enc: string, key: seq<byte>, d: StudentDocument)
    requires Trim(enc) == enc != ""
    ensures DecryptDiplomaPayload(p, enc, key) == Some(d) <==> Holds(p, key, enc, d)
  {
    hide Trim;
    hide CheckDocument;
    hide OneName;
    hide Required;
    hide GoDecodeStd;
    if OpenEnvelope(p, enc, key).Some? {
      CheckExactly(OpenEnvelope(p, enc, key).value, d);
    }
    if Holds(p, key, enc, d) {
      var w :| GoDecodeStd(enc).Some? && Opens(p, key, GoDecodeStd(enc).value, w) && OneName(w, d) && Required(d);
      CheckExactly(w, d);
    }
  }

  lemma RecomputedExactly(p: Primitives, d: StudentDocument, vuz: string)
    requires Required(d) && Trim(vuz) == vuz != ""
    ensures HashDiplomaInput(p, HashInputOf(d, vuz)) == Success(Recomputed(p, d, vuz))
  {
    hide Trim;
  }

  lemma EnvelopeExactly(p: Primitives, key: seq<byte>, c: OuterClaims, d: StudentDocument, hash: string)
    requires Trim(c.vuz) == c.vuz != "" && Trim(c.enc) == c.enc != ""
    ensures V.CheckEnvelope(p, key, c) == Success((hash, d)) <==>
              && Holds(p, key, c.enc, d) && hash == Recomputed(p, d, c.vuz) && Folds(c.hash, hash) && Folds(c.sub, hash)
  {
    hide DecryptDiplomaPayload;
    hide HashDiplomaInput;
    hide HashInputOf;
    hide Recomputed;
    hide Folds;
    hide V.EqualFold;
    DecryptExactly(p, c.enc, key, d);
    if DecryptDiplomaPayload(p, c.enc, key).Some? {
      var e := DecryptDiplomaPayload(p, c.enc, key).value;
      DecryptExactly(p, c.enc, key, e);
      RecomputedExactly(p, e, c.vuz);
      FoldsAgree(c.hash, Recomputed(p, e, c.vuz));
      FoldsAgree(c.sub, Recomputed(p, e, c.vuz));
    }
  }

  lemma ClaimExactly(claim: Option<Json>)
    ensures StringClaim(claim) == if Stated(claim) == "" then None else Some(Stated(claim))
    ensures OptionalStringClaim(claim) == Stated(claim)
    ensures Trim(Stated(claim)) == Stated(claim)
    ensures Int64Claim(claim).Some? <==> IsInt64(claim)
  {
    TrimEmpty();
    if claim.Some? && claim.value.JsonString? {
      TrimIdempotent(claim.value.text);
    }
    hide Trim;
  }

  lemma OuterExactly(c: Claims)
    ensures ExtractOuterClaims(c) ==
              if Complete(c) then Some(OuterClaims(Stated(c.sub), ClaimedHash(c), Stated(c.vuzId), Stated(c.enc), Int64Claim(c.iat).value))
              else None
  {
    ClaimExactly(c.sub);
    ClaimExactly(c.diplomaHash);
    ClaimExactly(c.vuzId);
    ClaimExactly(c.enc);
    ClaimExactly(c.iat);
    hide Stated;
    hide StringClaim;
    hide OptionalStringClaim;
    hide Int64Claim;
    hide IsInt64;
  }

  /** `CheckToken` lets exactly the tokens through that carry a document, with that document and its hash. */
  lemma CheckedExactly(p: Primitives, db: Db, key: seq<byte>, token: string, hash: string, d: StudentDocument)
    ensures V.CheckToken(p, db, key, token) == Success((hash, d)) <==>
              Carries(p, db.universities, key, token, d) && hash == Recomputed(p, d, Stated(ClaimsOf(p, token).value.vuzId))
  {
    hide V.CheckEnvelope;
    hide SplitDots;
    hide DecodeUrl;
    hide Stated;
    hide StringClaim;
    hide ExtractOuterClaims;
    hide Holds;
    hide Recomputed;
    hide Folds;
    EmptyCarriesNothing(p);
    if ClaimsOf(p, token).Some? {
      var c := ClaimsOf(p, token).value;
      ClaimExactly(c.vuzId);
      ClaimExactly(c.enc);
      OuterExactly(c);
      if Complete(c) {
        EnvelopeExactly(p, key, ExtractOuterClaims(c).value, d, hash);
      }
    }
  }

  lemma EmptyCarriesNothing(p: Primitives)
    ensures ClaimsOf(p, "") == None
  {
    assert SplitDots("") == [""];
  }

  // ---- VerifyPayload ----

  /** The answer about a registered diploma: the registry's and the university's fields, and the document's where the
      registry has none. */
  function AnswerFrom(db: Db, k: RegistryKey, d: StudentDocument): V.VerifyResponse
    requires V.Joined(db, k)
  {
    var e, u := db.registry[k], db.universities[k.vuz];
    V.VerifyResponse(!e.revoked, if e.revoked then V.RevokedDiploma else V.Active, e.hash,
                     if Blank(k.number) then d.number else k.number, u.name, u.code,
                     if d.year == 0 then None else Some(d.year), if Blank(d.specialty) then None else Some(d.specialty),
                     if Blank(d.degree) then None else Some(d.degree), if Blank(d.faculty) then None else Some(d.faculty), e.revokedAt)
  }

  lemma CarriesHash(p: Primitives, universities: Universities, key: seq<byte>, token: string, d: StudentDocument)
    requires Carries(p, universities, key, token, d)
    ensures d.year >= 0 && ClaimsOf(p, token).Some?
  {
  }

  /** `VerifyPayload` accepts a token exactly if it carries a document: signed by the university it names, complete,
      decryptable, and claiming the document's hash twice. The answer is then about the diploma registered under that
      hash, if there is one, and otherwise that there is none. */
  lemma {:induction false} AcceptedExactly(p: Primitives, db: Db, key: seq<byte>, input: string, pick: Option<RowKey>)
    requires V.UniqueHashes(db.registry)
    ensures var r, token := V.VerifyPayload(p, db, key, input, pick), Trim(input);
            && (r.Success? <==> exists d :: Carries(p, db.universities, key, token, d))
            && forall d | Carries(p, db.universities, key, token, d) ::
                 && d.year >= 0 && ClaimsOf(p, token).Some?
                 && var hash := Recomputed(p, d, Stated(ClaimsOf(p, token).value.vuzId));
                 && (forall k | V.Joined(db, k) && db.registry[k].hash == hash :: r.value == AnswerFrom(db, k, d))
                 && ((forall k | V.Joined(db, k) :: db.registry[k].hash != hash) ==>
                       r.value == V.VerifyResponse(false, V.NotFound, hash, "", "", "", None, None, None, None, None))
  {
    hide V.CheckToken;
    hide Carries;
    hide Recomputed;
    hide Stated;
    hide ClaimsOf;
    var token := Trim(input);
    var checked := V.CheckToken(p, db, key, token);
    if checked.Success? {
      CheckedExactly(p, db, key, token, checked.value.0, checked.value.1);
    }
    forall d | Carries(p, db.universities, key, token, d)
      ensures d.year >= 0 && ClaimsOf(p, token).Some?
      ensures checked == Success((Recomputed(p, d, Stated(ClaimsOf(p, token).value.vuzId)), d))
    {
      CarriesHash(p, db.universities, key, token, d);
      CheckedExactly(p, db, key, token, Recomputed(p, d, Stated(ClaimsOf(p, token).value.vuzId)), d);
    }
  }

  /** Which error a refused token gets: none at all, a university id the database cannot read, or anything else. */
  lemma {:induction false} RefusedExactly(p: Primitives, db: Db, key: seq<byte>, input: string, pick: Option<RowKey>)
    ensures var r, claims := V.VerifyPayload(p, db, key, input, pick), ClaimsOf(p, Trim(input));
            && (r == Failure(V.InvalidInput) <==> Blank(input))
            && (r == Failure(V.LookupFailed) <==>
                  claims.Some? && Stated(claims.value.vuzId) != "" && !ValidUuid(Stated(claims.value.vuzId)))
  {
    hide Trim;
    hide Stated;
    hide StringClaim;
    hide SplitDots;
    hide DecodeUrl;
    hide VerifyEd25519JWT;
    hide ExtractOuterClaims;
    hide DecryptDiplomaPayload;
    hide HashDiplomaInput;
    hide ValidUuid;
    EmptyCarriesNothing(p);
    if ClaimsOf(p, Trim(input)).Some? {
      ClaimExactly(ClaimsOf(p, Trim(input)).value.vuzId);
    }
  }

  // ---- the gateway's reader ----

  const ALGORITHMS := ["EdDSA", "none", "HS256", "HS384", "HS512", "RS256", "RS384", "RS512", "PS256", "PS384", "PS512",
                       "ES256", "ES384", "ES512"]

  /** A claim's text as it stands. */
  function Raw(claim: Option<Json>): string {
    if claim.Some? && claim.value.JsonString? then claim.value.text else ""
  }

  /** `d` is `w` with its names trimmed and the one standing in for the other; the gateway accepts two different ones. */
  predicate BothNames(w: StudentDocument, d: StudentDocument) {
    d == w.(fullName := if Blank(w.fullName) then Trim(w.studentName) else Trim(w.fullName),
            studentName := if Blank(w.studentName) then Trim(w.fullName) else Trim(w.studentName))
  }

  /** A token as the gateway reads it, whoever signed it and whether or not its claims are complete. */
  ghost predicate GatewayTells(p: Primitives, key: seq<byte>, token: string, vuz: string, d: StudentDocument) {
    var parts := SplitDots(token);
    && !Blank(token) && |parts| == 3 && ClaimsOf(p, token).Some?
    && DecodeUrl(parts[0]).Some? && p.readAlgorithm(DecodeUrl(parts[0]).value).Some?
    && p.readAlgorithm(DecodeUrl(parts[0]).value).value in ALGORITHMS
    && var c := ClaimsOf(p, token).value;
    && vuz == Raw(c.vuzId) && Stated(c.enc) != "" && GoDecodeStd(Stated(c.enc)).Some?
    && var raw := GoDecodeStd(Stated(c.enc)).value;
    && |raw| >= NONCE_SIZE && p.open(key, raw[..NONCE_SIZE], raw[NONCE_SIZE..]).Some?
    && exists w :: p.readStudent(p.open(key, raw[..NONCE_SIZE], raw[NONCE_SIZE..]).value) == Some(w) && BothNames(w, d)
  }

  const FAMILIES := ["HS", "RS", "PS", "ES"]
  const SIZES := ["256", "384", "512"]

  lemma FamilyAndSize(f: nat, n: nat)
    requires f < 4 && n < 3
    ensures FAMILIES[f] + SIZES[n] == ALGORITHMS[2 + 3 * f + n]
  {
  }

  lemma FamiliesKnown(alg: string)
    requires |alg| == 5 && alg[..2] in FAMILIES && alg[2..] in SIZES
    ensures alg in ALGORITHMS
  {
    var f, n :| 0 <= f < 4 && 0 <= n < 3 && FAMILIES[f] == alg[..2] && SIZES[n] == alg[2..];
    FamilyAndSize(f, n);
    assert alg == alg[..2] + alg[2..];
  }

  lemma ListedKnown(i: nat)
    requires 2 <= i < 14
    ensures KnownAlgorithm(ALGORITHMS[i])
  {
    var f, n := (i - 2) / 3, (i - 2) % 3;
    FamilyAndSize(f, n);
    var alg := FAMILIES[f] + SIZES[n];
    assert alg[..2] == FAMILIES[f] && alg[2..] == SIZES[n];
  }

  lemma KnownExactly(alg: string)
    ensures KnownAlgorithm(alg) <==> alg in ALGORITHMS
  {
    if KnownAlgorithm(alg) {
      if alg == "EdDSA" {
        assert ALGORITHMS[0] == alg;
      } else if alg == "none" {
        assert ALGORITHMS[1] == alg;
      } else {
        FamiliesKnown(alg);
      }
    }
    if i :| 0 <= i < 14 && ALGORITHMS[i] == alg {
      if i >= 2 {
        ListedKnown(i);
      }
    }
  }

  lemma GatewayNamesExactly(w: StudentDocument)
    ensures BothNames(w, GatewayNormalize(w))
  {
  }

  /** The gateway reads university and document out of exactly these tokens. */
  lemma {:induction false} GatewayReadsExactly(p: Primitives, key: seq<byte>, token: string, vuz: string, d: StudentDocument)
    ensures GatewayParse(p, key, token) == Some((vuz, d)) <==> GatewayTells(p, key, token, vuz, d)
  {
    hide SplitDots;
    hide DecodeUrl;
    hide Trim;
    hide GatewayNormalize;
    hide GoDecodeStd;
    hide KnownAlgorithm;
    hide BothNames;
    forall alg: string ensures KnownAlgorithm(alg) <==> alg in ALGORITHMS {
      KnownExactly(alg);
    }
    TrimEmpty();
    forall w, x | BothNames(w, x) ensures x == GatewayNormalize(w) {
      OnlyNames(w, x);
    }
    forall w ensures BothNames(w, GatewayNormalize(w)) {
      GatewayNamesExactly(w);
    }
  }

  lemma OnlyNames(w: StudentDocument, d: StudentDocument)
    requires BothNames(w, d)
    ensures d == GatewayNormalize(w)
  {
  }
}
