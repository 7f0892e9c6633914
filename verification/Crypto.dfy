/** Records, keys and the library primitives (SHA-256, AES-256-GCM, Ed25519, JSON), the latter known only by
    the laws stated in `Lawful`. */
module Crypto {
  import opened Wrappers

  type byte = n: int | 0 <= n < 256
  type u16 = n: nat | n < 0x1_0000

  predicate IsLowerHex(c: char) {
    '0' <= c <= '9' || 'a' <= c <= 'f'
  }

  /** The canonical text of a UUID: always 36 characters. */
  predicate ValidUuid(u: string) {
    |u| == 36 && forall i | 0 <= i < |u| :: IsLowerHex(u[i]) || u[i] == '-'
  }

  type Uuid = u: string | ValidUuid(u) witness "00000000-0000-0000-0000-000000000000"

  /** One uploaded diploma record; the worker reads the year as a 16-bit number. */
  datatype Student = Student(fullName: string, number: string, specialty: string, degree: string,
                             faculty: string, year: u16)

  datatype PrivateKey = PrivateKey(seed: seq<byte>)
  datatype PublicKey = PublicKey(point: seq<byte>)

  /** The claims the worker signs; `sub` and `diploma_hash` carry the same value. */
  datatype QrClaims = QrClaims(hash: string, vuz: Uuid, enc: string, iat: nat)

  /** What the Go services find in the decrypted `enc` document. */
  datatype StudentDocument = StudentDocument(fullName: string, studentName: string, number: string,
                                             specialty: string, degree: string, faculty: string,
                                             year: int, salt: string)

  datatype Json = JsonString(text: string) | JsonNumber(n: int) | JsonOther

  /** A decoded claims object, as far as anyone reads it; other members are ignored. */
  datatype Claims = Claims(sub: Option<Json>, diplomaHash: Option<Json>, vuzId: Option<Json>, enc: Option<Json>,
                           iat: Option<Json>)

  datatype Primitives = Primitives(
    sha: string -> string,
    seal: (seq<byte>, seq<byte>, seq<byte>) -> seq<byte>,
    open: (seq<byte>, seq<byte>, seq<byte>) -> Option<seq<byte>>,
    writeStudent: (Student, string) -> seq<byte>,
    readStudent: seq<byte> -> Option<StudentDocument>,
    writeClaims: QrClaims -> seq<byte>,
    readClaims: seq<byte> -> Option<Claims>,
    header: seq<byte>,
    readAlgorithm: seq<byte> -> Option<string>,
    readPrivate: seq<byte> -> Option<PrivateKey>,
    publicOf: PrivateKey -> PublicKey,
    sign: (PrivateKey, string) -> seq<byte>,
    accepts: (PublicKey, string, seq<byte>) -> bool)

  const KEY_SIZE := 32
  const NONCE_SIZE := 12
  const TAG_SIZE := 16

  predicate IsDigest(h: string) {
    |h| == 64 && forall i | 0 <= i < |h| :: IsLowerHex(h[i])
  }

  /** SHA-256 written in hexadecimal. */
  ghost predicate LawfulHash(p: Primitives) {
    forall s: string :: IsDigest(p.sha(s))
  }

  /** AES-256-GCM opens what it sealed under the same key and nonce, and adds a 16-byte tag. */
  ghost predicate LawfulCipher(p: Primitives) {
    forall k, n, m {:trigger p.seal(k, n, m)} ::
      p.open(k, n, p.seal(k, n, m)) == Some(m) && |p.seal(k, n, m)| == |m| + TAG_SIZE
  }

  function DocumentOf(s: Student, salt: string): StudentDocument {
    StudentDocument(s.fullName, "", s.number, s.specialty, s.degree, s.faculty, s.year, salt)
  }

  function WrittenClaims(c: QrClaims): Claims {
    Claims(Some(JsonString(c.hash)), Some(JsonString(c.hash)), Some(JsonString(c.vuz)), Some(JsonString(c.enc)),
           Some(JsonNumber(c.iat)))
  }

  /** JSON documents read back as they were written; `student_name` is absent and so reads as "". */
  ghost predicate LawfulJson(p: Primitives) {
    && (forall s, salt {:trigger p.writeStudent(s, salt)} :: p.readStudent(p.writeStudent(s, salt)) == Some(DocumentOf(s, salt)))
    && (forall c {:trigger p.writeClaims(c)} :: p.readClaims(p.writeClaims(c)) == Some(WrittenClaims(c)))
    && p.readAlgorithm(p.header) == Some("EdDSA")
  }

  /** A signature is accepted under the public half of the signing key. */
  ghost predicate LawfulSignature(p: Primitives) {
    forall k, m {:trigger p.sign(k, m)} :: p.accepts(p.publicOf(k), m, p.sign(k, m))
  }

  ghost predicate Lawful(p: Primitives) {
    LawfulHash(p) && LawfulCipher(p) && LawfulJson(p) && LawfulSignature(p)
  }

  /** No two of the strings actually hashed share a digest; a hypothesis about a finite set, not a law. */
  ghost predicate CollisionFree(p: Primitives, hashed: set<string>) {
    forall a, b {:trigger a in hashed, b in hashed} | a in hashed && b in hashed && p.sha(a) == p.sha(b) :: a == b
  }
}
