/** The QR token: a compact JWT (section 7.1 of RFC 7515) signed with EdDSA (section 3.1 of RFC 8037) around
    an AES-256-GCM envelope. Written by the worker, read by the public verifier and by the gateway. */
module Token {
  import opened Wrappers
  import opened Text
  import opened Crypto
  import opened Encoding
  import opened Canonical
  import T = Tables

  // ---- worker ----

  /** `encrypt_student_data`: base64 of nonce and ciphertext. */
  function EncryptStudent(p: Primitives, key: seq<byte>, nonce: seq<byte>, s: Student, salt: string): string {
    EncodeStd(nonce + p.seal(key, nonce, p.writeStudent(s, salt)))
  }

  function BuildQrClaims(p: Primitives, key: seq<byte>, nonce: seq<byte>, iat: nat, s: Student, vuz: Uuid): QrClaims {
    QrClaims(IssuedHash(p, s, vuz), vuz, EncryptStudent(p, key, nonce, s, p.sha(SaltInput(vuz, s.number))), iat)
  }

  function SigningInput(p: Primitives, claims: QrClaims): string {
    Encode(p.header, true) + "." + Encode(p.writeClaims(claims), true)
  }

  function CreateQrJwt(p: Primitives, claims: QrClaims, sk: PrivateKey): string {
    SigningInput(p, claims) + "." + Encode(p.sign(sk, SigningInput(p, claims)), true)
  }

  /** Nonce and issue time are the only parts of a token the record does not fix. */
  datatype Stamp = Stamp(nonce: seq<byte>, iat: nat)

  predicate ValidStamp(t: Stamp) {
    |t.nonce| == NONCE_SIZE && t.iat < 0x8000_0000_0000_0000
  }

  function IssueToken(p: Primitives, key: seq<byte>, sk: PrivateKey, t: Stamp, s: Student, vuz: Uuid): string {
    CreateQrJwt(p, BuildQrClaims(p, key, t.nonce, t.iat, s, vuz), sk)
  }

  // ---- splitting and claims (qr_jwt.go) ----

  /** `strings.Split(token, ".")`. */
  function SplitDots(s: string): (r: seq<string>)
    ensures r != []
  {
    if s == "" then [""]
    else if s[0] == '.' then [""] + SplitDots(s[1..])
    else
      var r := SplitDots(s[1..]);
      [[s[0]] + r[0]] + r[1..]
  }

  function DecodeUrl(s: string): Option<seq<byte>> {
    Decode(WithoutNewlines(s), true)
  }

  function DecodeUnverifiedJWT(p: Primitives, token: string): Option<Claims> {
    var parts := SplitDots(token);
    if |parts| != 3 then None
    else
      var payload := DecodeUrl(parts[1]);
      if payload.None? then None else p.readClaims(payload.value)
  }

  function StringClaim(claim: Option<Json>): Option<string> {
    match claim
    case Some(JsonString(text)) => if Blank(text) then None else Some(Trim(text))
    case _ => None
  }

  function OptionalStringClaim(claim: Option<Json>): string {
    match claim
    case Some(JsonString(text)) => Trim(text)
    case _ => ""
  }

  function Int64Claim(claim: Option<Json>): Option<int> {
    match claim
    case Some(JsonNumber(n)) => if -0x8000_0000_0000_0000 <= n < 0x8000_0000_0000_0000 then Some(n) else None
    case _ => None
  }

  datatype OuterClaims = OuterClaims(sub: string, hash: string, vuz: string, enc: string, iat: int)

  function ExtractOuterClaims(claims: Claims): Option<OuterClaims> {
    var vuz, iat := StringClaim(claims.vuzId), Int64Claim(claims.iat);
    var sub, enc := StringClaim(claims.sub), StringClaim(claims.enc);
    if vuz.None? || iat.None? || sub.None? || enc.None? then None
    else
      var hash := OptionalStringClaim(claims.diplomaHash);
      Some(OuterClaims(sub.value, if hash == "" then sub.value else hash, vuz.value, enc.value, iat.value))
  }

  predicate VerifyEd25519JWT(p: Primitives, token: string, publicKey: PublicKey) {
    var parts := SplitDots(token);
    && |parts| == 3
    && DecodeUrl(parts[0]).Some? && p.readAlgorithm(DecodeUrl(parts[0]).value) == Some("EdDSA")
    && DecodeUrl(parts[2]).Some?
    && p.accepts(publicKey, parts[0] + "." + parts[1], DecodeUrl(parts[2]).value)
  }

  // ---- envelope, public verifier (a256gcm.go) ----

  function Normalize(d: StudentDocument): Option<StudentDocument> {
    var full, student := Trim(d.fullName), Trim(d.studentName);
    var n := d.(fullName := full, studentName := student);
    if full == "" && student != "" then Some(n.(fullName := student))
    else if full != "" && student != "" && full != student then None
    else Some(n)
  }

  /** Base64, nonce and ciphertext, AES-GCM, JSON. */
  function OpenEnvelope(p: Primitives, enc: string, key: seq<byte>): Option<StudentDocument> {
    var raw := GoDecodeStd(Trim(enc));
    if Blank(enc) || raw.None? || |raw.value| < NONCE_SIZE + TAG_SIZE then None
    else
      var plain := p.open(key, raw.value[..NONCE_SIZE], raw.value[NONCE_SIZE..]);
      if plain.None? then None else p.readStudent(plain.value)
  }

  /** `normalize`, then `Validate`. */
  function CheckDocument(d: StudentDocument): Option<StudentDocument> {
    var n := Normalize(d);
    if n.None? || ValidateCore(n.value.fullName, n.value.number, n.value.specialty, n.value.year).Some?
       || Blank(n.value.salt)
    then None else n
  }

  function DecryptDiplomaPayload(p: Primitives, enc: string, key: seq<byte>): Option<StudentDocument> {
    var d := OpenEnvelope(p, enc, key);
    if d.None? then None else CheckDocument(d.value)
  }

  function HashInputOf(d: StudentDocument, vuz: string): HashInput {
    HashInput(d.fullName, d.number, d.specialty, d.degree, d.faculty, d.year, vuz, d.salt)
  }

  // ---- envelope, gateway (qr_payload_codec.go) ----

  /** Signing methods known to the gateway's JWT library; a header naming another is refused. */
  predicate KnownAlgorithm(alg: string) {
    alg == "EdDSA" || alg == "none" || (|alg| == 5 && alg[..2] in ["HS", "RS", "PS", "ES"] && alg[2..] in ["256", "384", "512"])
  }

  function PlainClaim(claim: Option<Json>): string {
    match claim
    case Some(JsonString(text)) => text
    case _ => ""
  }

  function GatewayNormalize(d: StudentDocument): StudentDocument {
    var full, student := Trim(d.fullName), Trim(d.studentName);
    if full == "" && student != "" then d.(fullName := student, studentName := student)
    else if student == "" && full != "" then d.(fullName := full, studentName := full)
    else d.(fullName := full, studentName := student)
  }

  function GatewayOpen(p: Primitives, key: seq<byte>, enc: string): Option<StudentDocument> {
    var raw := GoDecodeStd(Trim(enc));
    if raw.None? || |raw.value| < NONCE_SIZE then None
    else
      var plain := p.open(key, raw.value[..NONCE_SIZE], raw.value[NONCE_SIZE..]);
      if plain.None? || p.readStudent(plain.value).None? then None
      else Some(GatewayNormalize(p.readStudent(plain.value).value))
  }

  /** `Parse`: the claimed university and the decrypted fields; the signature is not checked here. */
  function GatewayParse(p: Primitives, key: seq<byte>, token: string): Option<(string, StudentDocument)> {
    var parts := SplitDots(token);
    if Blank(token) || |parts| != 3 || DecodeUrl(parts[0]).None? || DecodeUnverifiedJWT(p, token).None? then None
    else
      var alg := p.readAlgorithm(DecodeUrl(parts[0]).value);
      var claims := DecodeUnverifiedJWT(p, token).value;
      var enc := PlainClaim(claims.enc);
      if alg.None? || !KnownAlgorithm(alg.value) || Blank(enc) then None
      else
        var d := GatewayOpen(p, key, enc);
        if d.None? then None else Some((PlainClaim(claims.vuzId), d.value))
  }

  /** The part of it the persist path uses. */
  function GatewayParser(p: Primitives, key: seq<byte>): string -> Option<T.Parsed> {
    (token: string) =>
      var parsed := GatewayParse(p, key, token);
      if parsed.None? then None else Some(T.Parsed(parsed.value.0, parsed.value.1.number))
  }

  // ---- reading back what the worker wrote ----

  lemma {:induction false} SplitAtDot(a: string, t: string)
    requires AllPlain(a)
    ensures SplitDots(a) == [a]
    ensures SplitDots(a + "." + t) == [a] + SplitDots(t)
  {
    if a == "" {
      assert a + "." + t == "." + t;
      assert ("." + t)[1..] == t;
    } else {
      SplitAtDot(a[1..], t);
      assert (a + "." + t)[1..] == a[1..] + "." + t;
      assert Plain(a[0]);
      assert [a[0]] + a[1..] == a;
    }
  }

  lemma UrlReadsBack(b: seq<byte>)
    ensures DecodeUrl(Encode(b, true)) == Some(b) && AllPlain(Encode(b, true))
  {
    EncodePlain(b, true);
    EncodeReadsBack(b, true);
    NothingToSkip(Encode(b, true));
  }

  lemma ThreeSegments(h: string, c: string, s: string)
    requires AllPlain(h) && AllPlain(c) && AllPlain(s)
    ensures SplitDots(h + "." + c + "." + s) == [h, c, s]
  {
    SplitAtDot(s, "");
    SplitAtDot(c, s);
    SplitAtDot(h, c + "." + s);
    assert h + "." + c + "." + s == h + "." + (c + "." + s);
  }

  /** Compact serialization: a token the worker builds splits into its three segments again. */
  lemma TokenSplits(p: Primitives, claims: QrClaims, sk: PrivateKey)
    ensures SplitDots(CreateQrJwt(p, claims, sk))
         == [Encode(p.header, true), Encode(p.writeClaims(claims), true), Encode(p.sign(sk, SigningInput(p, claims)), true)]
  {
    UrlReadsBack(p.header);
    UrlReadsBack(p.writeClaims(claims));
    UrlReadsBack(p.sign(sk, SigningInput(p, claims)));
    ThreeSegments(Encode(p.header, true), Encode(p.writeClaims(claims), true), Encode(p.sign(sk, SigningInput(p, claims)), true));
  }

  lemma TokenReadsBack(p: Primitives, claims: QrClaims, sk: PrivateKey)
    requires LawfulJson(p) && LawfulSignature(p)
    ensures DecodeUnverifiedJWT(p, CreateQrJwt(p, claims, sk)) == Some(WrittenClaims(claims))
    ensures VerifyEd25519JWT(p, CreateQrJwt(p, claims, sk), p.publicOf(sk))
    ensures SplitDots(CreateQrJwt(p, claims, sk))[0] == Encode(p.header, true)
  {
    TokenSplits(p, claims, sk);
    UrlReadsBack(p.header);
    UrlReadsBack(p.writeClaims(claims));
    UrlReadsBack(p.sign(sk, SigningInput(p, claims)));
  }

  /** Whether the signature passes is up to the public key alone. */
  lemma SignatureDecides(p: Primitives, claims: QrClaims, sk: PrivateKey, publicKey: PublicKey)
    requires LawfulJson(p)
    ensures VerifyEd25519JWT(p, CreateQrJwt(p, claims, sk), publicKey) <==>
              p.accepts(publicKey, SigningInput(p, claims), p.sign(sk, SigningInput(p, claims)))
  {
    TokenSplits(p, claims, sk);
    UrlReadsBack(p.header);
    UrlReadsBack(p.sign(sk, SigningInput(p, claims)));
  }

  /** A token has no outer white space, so trimming it changes nothing. */
  lemma TokenTrimmed(p: Primitives, claims: QrClaims, sk: PrivateKey)
    ensures Trim(CreateQrJwt(p, claims, sk)) == CreateQrJwt(p, claims, sk) != ""
  {
    hide Encode;
    hide Decode;
    hide Trim;
    hide AllPlain;
    UrlReadsBack(p.header);
    UrlReadsBack(p.writeClaims(claims));
    UrlReadsBack(p.sign(sk, SigningInput(p, claims)));
    SegmentsSpaceFree(Encode(p.header, true), Encode(p.writeClaims(claims), true), Encode(p.sign(sk, SigningInput(p, claims)), true));
    TrimKeepsSpaceFree(CreateQrJwt(p, claims, sk));
  }

  lemma SegmentsSpaceFree(h: string, c: string, s: string)
    requires AllPlain(h) && AllPlain(c) && AllPlain(s)
    ensures NoSpaces(h + "." + c + "." + s) && h + "." + c + "." + s != ""
  {
    var t := h + "." + c + "." + s;
    forall i | 0 <= i < |t| ensures !IsSpace(t[i]) {
      if i < |h| {
        assert Plain(h[i]) && t[i] == h[i];
      } else if |h| < i <= |h| + |c| {
        assert Plain(c[i - |h| - 1]) && t[i] == c[i - |h| - 1];
      } else if i > |h| + |c| + 1 {
        assert Plain(s[i - |h| - |c| - 2]) && t[i] == s[i - |h| - |c| - 2];
      }
    }
  }

  lemma EnvelopeReadsBack(p: Primitives, key: seq<byte>, nonce: seq<byte>, s: Student, salt: string)
    requires LawfulCipher(p) && LawfulJson(p) && |nonce| == NONCE_SIZE
    ensures OpenEnvelope(p, EncryptStudent(p, key, nonce, s, salt), key) == Some(DocumentOf(s, salt))
    ensures GatewayOpen(p, key, EncryptStudent(p, key, nonce, s, salt)) == Some(GatewayNormalize(DocumentOf(s, salt)))
    ensures Trim(EncryptStudent(p, key, nonce, s, salt)) == EncryptStudent(p, key, nonce, s, salt) != ""
  {
    var sealed := p.seal(key, nonce, p.writeStudent(s, salt));
    var raw := nonce + sealed;
    EncodeStdReadsBack(raw);
    EncodeStdPlain(raw);
    assert raw[..NONCE_SIZE] == nonce && raw[NONCE_SIZE..] == sealed;
  }

  lemma NormalizeOneName(d: StudentDocument)
    requires d.studentName == ""
    ensures Normalize(d) == Some(d.(fullName := Trim(d.fullName)))
    ensures GatewayNormalize(d) == d.(fullName := Trim(d.fullName), studentName := Trim(d.fullName))
    ensures Blank(Trim(d.fullName)) <==> Blank(d.fullName)
  {
    TrimEmpty();
    TrimIdempotent(d.fullName);
  }

  lemma CheckWorkerDocument(s: Student, salt: string)
    requires !Blank(s.number) && !Blank(salt)
    ensures CheckDocument(DocumentOf(s, salt))
         == if Complete(s) then Some(DocumentOf(s, salt).(fullName := Trim(s.fullName))) else None
  {
    NormalizeOneName(DocumentOf(s, salt));
  }

  lemma OpenedThenChecked(p: Primitives, enc: string, key: seq<byte>, s: Student, salt: string)
    requires OpenEnvelope(p, enc, key) == Some(DocumentOf(s, salt))
    requires !Blank(s.number) && !Blank(salt)
    ensures DecryptDiplomaPayload(p, enc, key)
         == if Complete(s) then Some(DocumentOf(s, salt).(fullName := Trim(s.fullName))) else None
  {
    CheckWorkerDocument(s, salt);
  }

  /** The verifier decrypts a worker's envelope to the record with its name trimmed, unless a required field is blank. */
  lemma {:induction false} VerifierDecrypts(p: Primitives, key: seq<byte>, nonce: seq<byte>, s: Student, salt: string)
    requires LawfulCipher(p) && LawfulJson(p) && |nonce| == NONCE_SIZE
    requires !Blank(s.number) && !Blank(salt)
    ensures DecryptDiplomaPayload(p, EncryptStudent(p, key, nonce, s, salt), key)
         == if Complete(s) then Some(DocumentOf(s, salt).(fullName := Trim(s.fullName))) else None
  {
    EnvelopeReadsBack(p, key, nonce, s, salt);
    OpenedThenChecked(p, EncryptStudent(p, key, nonce, s, salt), key, s, salt);
  }

  lemma GatewayReadsClaims(p: Primitives, key: seq<byte>, token: string, claims: QrClaims)
    requires LawfulJson(p)
    requires |SplitDots(token)| == 3 && DecodeUrl(SplitDots(token)[0]) == Some(p.header)
    requires DecodeUnverifiedJWT(p, token) == Some(WrittenClaims(claims))
    requires !Blank(token) && !Blank(claims.enc) && GatewayOpen(p, key, claims.enc).Some?
    ensures GatewayParse(p, key, token) == Some((claims.vuz, GatewayOpen(p, key, claims.enc).value))
  {
  }

  /** The gateway reads the university and the raw fields back out of every worker token. */
  lemma {:induction false} GatewayReadsToken(p: Primitives, key: seq<byte>, sk: PrivateKey, t: Stamp, s: Student, vuz: Uuid)
    requires Lawful(p) && ValidStamp(t)
    ensures GatewayParse(p, key, IssueToken(p, key, sk, t, s, vuz))
         == Some((vuz, DocumentOf(s, p.sha(SaltInput(vuz, s.number))).(fullName := Trim(s.fullName), studentName := Trim(s.fullName))))
  {
    var claims := BuildQrClaims(p, key, t.nonce, t.iat, s, vuz);
    TokenSplits(p, claims, sk);
    TokenReadsBack(p, claims, sk);
    TokenTrimmed(p, claims, sk);
    UrlReadsBack(p.header);
    EnvelopeReadsBack(p, key, t.nonce, s, p.sha(SaltInput(vuz, s.number)));
    GatewayReadsClaims(p, key, IssueToken(p, key, sk, t, s, vuz), claims);
    NormalizeOneName(DocumentOf(s, p.sha(SaltInput(vuz, s.number))));
  }

  lemma OuterClaimsReadBack(c: QrClaims)
    requires IsDigest(c.hash) && c.iat < 0x8000_0000_0000_0000 && Trim(c.enc) == c.enc != ""
    ensures ExtractOuterClaims(WrittenClaims(c)) == Some(OuterClaims(c.hash, c.hash, c.vuz, c.enc, c.iat))
    ensures StringClaim(WrittenClaims(c).vuzId) == Some(c.vuz)
  {
    HexIsTrimmed(c.hash);
    HexIsTrimmed(c.vuz);
  }
}
