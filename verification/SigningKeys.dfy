/** Signing keys: the write-once public key, the sealed private key beside it, and the `v1:` envelope in which
    the worker reads it (signing_keys.go, key_encryptor.go, diploma.rs). */
module SigningKeys {
  import opened Wrappers
  import opened Crypto
  import opened Encoding
  import opened Tables
  import V = Verification
  import Tk = Token

  // ---- the sealed form ----

  const PREFIX := "v1:"

  function Seal(p: Primitives, master: seq<byte>, nonce: seq<byte>, pem: seq<byte>): string {
    PREFIX + EncodeStd(nonce + p.seal(master, nonce, pem))
  }

  predicate HasPrefix(s: string) {
    |s| >= |PREFIX| && s[..|PREFIX|] == PREFIX
  }

  /** `decrypt_private_key`, then the PEM parse of the signer. */
  function WorkerUnseal(p: Primitives, master: seq<byte>, sealed: string): Option<PrivateKey> {
    if !HasPrefix(sealed) then None
    else
      var raw := RustDecode(sealed[|PREFIX|..]);
      if raw.None? || |raw.value| < NONCE_SIZE then None
      else
        var pem := p.open(master, raw.value[..NONCE_SIZE], raw.value[NONCE_SIZE..]);
        if pem.None? then None else p.readPrivate(pem.value)
  }

  function Opener(p: Primitives, master: seq<byte>): string -> Option<PrivateKey> {
    (sealed: string) => WorkerUnseal(p, master, sealed)
  }

  /** The gateway's own `Open`. */
  function GatewayUnseal(p: Primitives, master: seq<byte>, sealed: string): Option<seq<byte>> {
    if !HasPrefix(sealed) then None
    else
      var raw := GoDecodeStd(sealed[|PREFIX|..]);
      if raw.None? || |raw.value| < NONCE_SIZE then None
      else p.open(master, raw.value[..NONCE_SIZE], raw.value[NONCE_SIZE..])
  }

  /** What the gateway seals, both the gateway and the worker open again. */
  lemma SealedKeyOpens(p: Primitives, master: seq<byte>, nonce: seq<byte>, pem: seq<byte>)
    requires LawfulCipher(p) && |nonce| == NONCE_SIZE
    ensures WorkerUnseal(p, master, Seal(p, master, nonce, pem)) == p.readPrivate(pem)
    ensures GatewayUnseal(p, master, Seal(p, master, nonce, pem)) == Some(pem)
  {
    var raw := nonce + p.seal(master, nonce, pem);
    var sealed := Seal(p, master, nonce, pem);
    EncodeStdReadsBack(raw);
    assert sealed[..|PREFIX|] == PREFIX && sealed[|PREFIX|..] == EncodeStd(raw);
    assert raw[..NONCE_SIZE] == nonce && raw[NONCE_SIZE..] == p.seal(master, nonce, pem);
  }

  // ---- Upsert, in its three database steps ----

  datatype UpsertError = InvalidSigningKey | UniversityNotFound | SigningKeyMismatch

  /** A request and the nonce its key is sealed with. */
  datatype Call = Call(vuz: Uuid, pem: seq<byte>, nonce: seq<byte>)

  /** Step one, SELECT: parse the key and compare it with the stored public key. Success says whether the public
      key is still to be written. */
  function ReadUniversity(p: Primitives, db: Db, c: Call): Result<bool, UpsertError> {
    var sk := p.readPrivate(c.pem);
    if sk.None? then Failure(InvalidSigningKey)
    else if c.vuz !in db.universities then Failure(UniversityNotFound)
    else
      var stored := db.universities[c.vuz].publicKey;
      if stored.Some? && stored.value != p.publicOf(sk.value) then Failure(SigningKeyMismatch)
      else Success(stored.None?)
  }

  /** Step two, an unconditional UPDATE of the public key. */
  function WritePublic(p: Primitives, db: Db, c: Call): Db {
    var sk := p.readPrivate(c.pem);
    if sk.None? || c.vuz !in db.universities then db
    else db.(universities := db.universities[c.vuz := db.universities[c.vuz].(publicKey := Some(p.publicOf(sk.value)))])
  }

  /** Step three, INSERT .. ON CONFLICT DO UPDATE of the sealed private key. */
  function WritePrivate(p: Primitives, master: seq<byte>, db: Db, c: Call): Db {
    if c.vuz !in db.universities then db
    else db.(keys := db.keys[c.vuz := Seal(p, master, c.nonce, c.pem)])
  }

  /** One call that no other call overlaps; `crash` stops it between its two writes. */
  function Upsert(p: Primitives, master: seq<byte>, db: Db, c: Call, crash: bool): Result<Db, UpsertError> {
    var first :- ReadUniversity(p, db, c);
    var published := if first then WritePublic(p, db, c) else db;
    Success(if crash then published else WritePrivate(p, master, published, c))
  }

  /** Every stored private key opens for the worker and derives the university's public key. */
  ghost predicate KeysOk(p: Primitives, unseal: string -> Option<PrivateKey>, universities: Universities, keys: map<Uuid, string>) {
    forall vuz | vuz in keys ::
      && vuz in universities
      && unseal(keys[vuz]).Some?
      && V.KeyMatches(p, universities, vuz, unseal(keys[vuz]).value)
  }

  /** A public key, once set, stays. */
  ghost predicate PublicKeysKept(universities: Universities, after: Universities) {
    forall vuz | vuz in universities && vuz in after && universities[vuz].publicKey.Some? ::
      after[vuz].publicKey == universities[vuz].publicKey
  }

  lemma StoringFits(p: Primitives, master: seq<byte>, db: Db, vuz: Uuid, sealed: string, sk: PrivateKey)
    requires KeysOk(p, Opener(p, master), db.universities, db.keys)
    requires V.KeyMatches(p, db.universities, vuz, sk) && WorkerUnseal(p, master, sealed) == Some(sk)
    ensures KeysOk(p, Opener(p, master), db.universities, db.keys[vuz := sealed])
  {
  }

  lemma PublishingFits(p: Primitives, master: seq<byte>, db: Db, c: Call)
    requires KeysOk(p, Opener(p, master), db.universities, db.keys) && ReadUniversity(p, db, c) == Success(true)
    ensures var after := WritePublic(p, db, c).universities;
            && KeysOk(p, Opener(p, master), after, db.keys) && PublicKeysKept(db.universities, after)
            && V.KeyMatches(p, after, c.vuz, p.readPrivate(c.pem).value)
  {
  }

  lemma UpsertKeepsKeys(p: Primitives, master: seq<byte>, db: Db, c: Call, crash: bool)
    requires LawfulCipher(p) && |c.nonce| == NONCE_SIZE && KeysOk(p, Opener(p, master), db.universities, db.keys)
    requires Upsert(p, master, db, c, crash).Success?
    ensures var after := Upsert(p, master, db, c, crash).value;
            KeysOk(p, Opener(p, master), after.universities, after.keys) && PublicKeysKept(db.universities, after.universities)
  {
    var first := ReadUniversity(p, db, c).value;
    if first {
      PublishingFits(p, master, db, c);
    }
    if !crash {
      SealedKeyOpens(p, master, c.nonce, c.pem);
      StoringFits(p, master, if first then WritePublic(p, db, c) else db, c.vuz, Seal(p, master, c.nonce, c.pem),
                  p.readPrivate(c.pem).value);
    }
  }

  /** What a call refuses, in this order: an unreadable key, an unknown university, a key other than the public key on
      record. */
  lemma {:induction false} RefusedExactly(p: Primitives, master: seq<byte>, db: Db, c: Call, crash: bool)
    ensures var r := Upsert(p, master, db, c, crash);
            var known := c.vuz in db.universities;
            && (r == Failure(InvalidSigningKey) <==> p.readPrivate(c.pem).None?)
            && (r == Failure(UniversityNotFound) <==> p.readPrivate(c.pem).Some? && !known)
            && (r == Failure(SigningKeyMismatch) <==>
                  && p.readPrivate(c.pem).Some? && known && db.universities[c.vuz].publicKey.Some?
                  && db.universities[c.vuz].publicKey.value != p.publicOf(p.readPrivate(c.pem).value))
  {
    hide WritePublic;
    hide WritePrivate;
  }

  /** The university with the key's public half. */
  function Published(p: Primitives, universities: Universities, c: Call, sk: PrivateKey): Universities
    requires c.vuz in universities
  {
    universities[c.vuz := universities[c.vuz].(publicKey := Some(p.publicOf(sk)))]
  }

  lemma AfterReading(p: Primitives, db: Db, c: Call)
    requires ReadUniversity(p, db, c).Success?
    ensures c.vuz in db.universities && p.readPrivate(c.pem).Some?
    ensures var published := if ReadUniversity(p, db, c).value then WritePublic(p, db, c) else db;
            published == db.(universities := Published(p, db.universities, c, p.readPrivate(c.pem).value))
  {
    var sk := p.readPrivate(c.pem).value;
    if db.universities[c.vuz].publicKey.Some? {
      assert db.universities[c.vuz].(publicKey := Some(p.publicOf(sk))) == db.universities[c.vuz];
      assert Published(p, db.universities, c, sk) == db.universities;
    }
  }

  lemma AfterStoring(p: Primitives, master: seq<byte>, db: Db, c: Call)
    requires c.vuz in db.universities
    ensures WritePrivate(p, master, db, c) == db.(keys := db.keys[c.vuz := Seal(p, master, c.nonce, c.pem)])
  {
  }

  /** What a call leaves: the university has the key's public half, and unless the call was cut short its sealed key opens
      to the key given; nothing else changes. */
  lemma {:induction false} UpsertExactly(p: Primitives, master: seq<byte>, db: Db, c: Call, crash: bool)
    requires LawfulCipher(p) && |c.nonce| == NONCE_SIZE && Upsert(p, master, db, c, crash).Success?
    ensures var after := Upsert(p, master, db, c, crash).value;
            && after == db.(universities := after.universities, keys := after.keys)
            && c.vuz in db.universities && p.readPrivate(c.pem).Some?
            && after.universities ==
                 db.universities[c.vuz := db.universities[c.vuz].(publicKey := Some(p.publicOf(p.readPrivate(c.pem).value)))]
            && after.keys.Keys == (if crash then db.keys.Keys else db.keys.Keys + {c.vuz})
            && (forall v | v in db.keys && (crash || v != c.vuz) :: after.keys[v] == db.keys[v])
            && (!crash ==> WorkerUnseal(p, master, after.keys[c.vuz]) == p.readPrivate(c.pem)
                           && GatewayUnseal(p, master, after.keys[c.vuz]) == Some(c.pem))
  {
    hide Seal;
    hide WorkerUnseal;
    hide GatewayUnseal;
    hide ReadUniversity;
    hide WritePublic;
    hide WritePrivate;
    SealedKeyOpens(p, master, c.nonce, c.pem);
    AfterReading(p, db, c);
    var published := if ReadUniversity(p, db, c).value then WritePublic(p, db, c) else db;
    if !crash {
      AfterStoring(p, master, published, c);
    }
  }

  /** A text without the envelope's prefix opens for nobody, and a worker refuses what is too short to hold a nonce. */
  lemma {:induction false} OnlyEnvelopesOpen(p: Primitives, master: seq<byte>, sealed: string)
    ensures |sealed| < 3 || sealed[..3] != "v1:" ==> WorkerUnseal(p, master, sealed).None? && GatewayUnseal(p, master, sealed).None?
    ensures WorkerUnseal(p, master, sealed).Some? ==>
              && RustDecode(sealed[3..]).Some? && |RustDecode(sealed[3..]).value| >= NONCE_SIZE
              && var raw := RustDecode(sealed[3..]).value;
              && p.open(master, raw[..NONCE_SIZE], raw[NONCE_SIZE..]).Some?
              && WorkerUnseal(p, master, sealed) == p.readPrivate(p.open(master, raw[..NONCE_SIZE], raw[NONCE_SIZE..]).value)
  {
    hide RustDecode;
    hide GoDecodeStd;
  }

  function UpsertRun(p: Primitives, master: seq<byte>, db: Db, calls: seq<(Call, bool)>): Db {
    if calls == [] then db
    else
      var before := UpsertRun(p, master, db, calls[..|calls| - 1]);
      var last := calls[|calls| - 1];
      var r := Upsert(p, master, before, last.0, last.1);
      if r.Success? then r.value else before
  }

  /** Over any run of calls that do not overlap, crashes between the two writes included, set public keys stay
      and every stored private key derives the public key beside it. */
  lemma {:induction false} UpsertRunsKeepKeys(p: Primitives, master: seq<byte>, db: Db, calls: seq<(Call, bool)>)
    requires LawfulCipher(p) && KeysOk(p, Opener(p, master), db.universities, db.keys)
    requires forall i | 0 <= i < |calls| :: |calls[i].0.nonce| == NONCE_SIZE
    ensures var end := UpsertRun(p, master, db, calls);
            KeysOk(p, Opener(p, master), end.universities, end.keys) && PublicKeysKept(db.universities, end.universities)
    ensures UpsertRun(p, master, db, calls).universities.Keys == db.universities.Keys
  {
    if calls != [] {
      var before := UpsertRun(p, master, db, calls[..|calls| - 1]);
      var last := calls[|calls| - 1];
      UpsertRunsKeepKeys(p, master, db, calls[..|calls| - 1]);
      if Upsert(p, master, before, last.0, last.1).Success? {
        UpsertKeepsKeys(p, master, before, last.0, last.1);
      }
    }
  }

  /** So whatever the worker signs with the key it unseals, the public verifier accepts the signature. */
  lemma {:induction false} UnsealedKeySignsAcceptedTokens(p: Primitives, unseal: string -> Option<PrivateKey>, db: Db, vuz: Uuid,
                                                          claims: QrClaims)
    requires LawfulJson(p) && LawfulSignature(p) && KeysOk(p, unseal, db.universities, db.keys) && vuz in db.keys
    ensures var sk := unseal(db.keys[vuz]).value;
            Tk.VerifyEd25519JWT(p, Tk.CreateQrJwt(p, claims, sk), db.universities[vuz].publicKey.value)
  {
    Tk.TokenReadsBack(p, claims, unseal(db.keys[vuz]).value);
  }

  // ---- overlapping calls ----

  /** The writes of overlapping first calls, each of which has already read that no public key is set. */
  datatype KeyWrite = PublicWrite(c: Call) | PrivateWrite(c: Call)

  function OverlappingWrites(p: Primitives, master: seq<byte>, db: Db, writes: seq<KeyWrite>): Db {
    if writes == [] then db
    else
      var before := OverlappingWrites(p, master, db, writes[..|writes| - 1]);
      match writes[|writes| - 1]
      case PublicWrite(c) => WritePublic(p, before, c)
      case PrivateWrite(c) => WritePrivate(p, master, before, c)
  }

  function LastPublic(writes: seq<KeyWrite>): Option<Call> {
    if writes == [] then None
    else if writes[|writes| - 1].PublicWrite? then Some(writes[|writes| - 1].c)
    else LastPublic(writes[..|writes| - 1])
  }

  function LastPrivate(writes: seq<KeyWrite>): Option<Call> {
    if writes == [] then None
    else if writes[|writes| - 1].PrivateWrite? then Some(writes[|writes| - 1].c)
    else LastPrivate(writes[..|writes| - 1])
  }

  function Derived(p: Primitives, c: Call): Option<PublicKey> {
    var sk := p.readPrivate(c.pem);
    if sk.None? then None else Some(p.publicOf(sk.value))
  }

  /** All writes are by well-formed calls for one existing university. */
  predicate WritesFor(p: Primitives, db: Db, vuz: Uuid, writes: seq<KeyWrite>) {
    vuz in db.universities
    && forall i | 0 <= i < |writes| :: writes[i].c.vuz == vuz && p.readPrivate(writes[i].c.pem).Some? && |writes[i].c.nonce| == NONCE_SIZE
  }

  lemma {:induction false} LastWritesStay(p: Primitives, master: seq<byte>, db: Db, vuz: Uuid, writes: seq<KeyWrite>)
    requires WritesFor(p, db, vuz, writes)
    ensures LastPublic(writes).Some? ==> p.readPrivate(LastPublic(writes).value.pem).Some?
    ensures LastPrivate(writes).Some? ==>
              p.readPrivate(LastPrivate(writes).value.pem).Some? && |LastPrivate(writes).value.nonce| == NONCE_SIZE
    ensures var end := OverlappingWrites(p, master, db, writes);
            && vuz in end.universities
            && (LastPublic(writes).Some? ==>
                  end.universities[vuz].publicKey == Some(p.publicOf(p.readPrivate(LastPublic(writes).value.pem).value)))
            && (LastPrivate(writes).Some? ==>
                  vuz in end.keys && end.keys[vuz] == Seal(p, master, LastPrivate(writes).value.nonce, LastPrivate(writes).value.pem))
  {
    if writes != [] {
      LastWritesStay(p, master, db, vuz, writes[..|writes| - 1]);
    }
  }

  /** After one schedule of overlapping first calls the keys left behind fit exactly if the call that wrote the
      public key last and the one that wrote the private key last brought the same public key. */
  lemma OverlapFitsExactly(p: Primitives, master: seq<byte>, db: Db, vuz: Uuid, writes: seq<KeyWrite>)
    requires LawfulCipher(p) && WritesFor(p, db, vuz, writes)
    requires LastPublic(writes).Some? && LastPrivate(writes).Some?
    ensures var end := OverlappingWrites(p, master, db, writes);
            && vuz in end.keys && WorkerUnseal(p, master, end.keys[vuz]).Some?
            && (V.KeyMatches(p, end.universities, vuz, WorkerUnseal(p, master, end.keys[vuz]).value)
                <==> Derived(p, LastPublic(writes).value) == Derived(p, LastPrivate(writes).value))
  {
    LastWritesStay(p, master, db, vuz, writes);
    SealedKeyOpens(p, master, LastPrivate(writes).value.nonce, LastPrivate(writes).value.pem);
  }

  /** The run that breaks it: two calls with different keys both find no public key, and their writes cross. */
  lemma OverlapCanBreakKeys(p: Primitives, master: seq<byte>, db: Db, a: Call, b: Call)
    requires LawfulCipher(p) && |a.nonce| == |b.nonce| == NONCE_SIZE && a.vuz == b.vuz
    requires ReadUniversity(p, db, a) == Success(true) && ReadUniversity(p, db, b) == Success(true)
    requires p.publicOf(p.readPrivate(a.pem).value) != p.publicOf(p.readPrivate(b.pem).value)
    ensures var end := OverlappingWrites(p, master, db, [PublicWrite(a), PublicWrite(b), PrivateWrite(b), PrivateWrite(a)]);
            !KeysOk(p, Opener(p, master), end.universities, end.keys)
  {
    var writes := [PublicWrite(a), PublicWrite(b), PrivateWrite(b), PrivateWrite(a)];
    assert writes[..3] == [PublicWrite(a), PublicWrite(b), PrivateWrite(b)];
    assert writes[..3][..2] == [PublicWrite(a), PublicWrite(b)];
    assert LastPublic(writes) == LastPublic(writes[..3]) == LastPublic(writes[..3][..2]) == Some(b);
    OverlapFitsExactly(p, master, db, a.vuz, writes);
  }

  // ---- which sets of calls may overlap ----

  /** First calls for one university: well-formed, and each has read that no public key is set. */
  predicate FirstCalls(p: Primitives, db: Db, vuz: Uuid, calls: set<Call>) {
    forall c | c in calls :: c.vuz == vuz && |c.nonce| == NONCE_SIZE && ReadUniversity(p, db, c) == Success(true)
  }

  /** Writes of these calls: each call writes its public key before its private key, each once, and may crash
      after any of its writes or before the first. */
  ghost predicate Interleaving(calls: set<Call>, writes: seq<KeyWrite>) {
    && (forall i | 0 <= i < |writes| :: writes[i].c in calls)
    && (forall i, j | 0 <= i < j < |writes| :: writes[i] != writes[j])
    && (forall j | 0 <= j < |writes| && writes[j].PrivateWrite? :: PublicWrite(writes[j].c) in writes[..j])
  }

  /** However the calls interleave and crash, the stored keys fit. */
  ghost predicate AlwaysFits(p: Primitives, master: seq<byte>, db: Db, calls: set<Call>) {
    forall writes | Interleaving(calls, writes) ::
      var end := OverlappingWrites(p, master, db, writes); KeysOk(p, Opener(p, master), end.universities, end.keys)
  }

  predicate SamePublicKey(p: Primitives, calls: set<Call>) {
    forall a, b | a in calls && b in calls :: Derived(p, a) == Derived(p, b)
  }

  lemma {:induction false} LastWriters(calls: set<Call>, writes: seq<KeyWrite>)
    requires forall i | 0 <= i < |writes| :: writes[i].c in calls
    ensures LastPublic(writes).Some? ==> LastPublic(writes).value in calls
    ensures LastPrivate(writes).Some? ==> LastPrivate(writes).value in calls
    ensures (exists i :: 0 <= i < |writes| && writes[i].PublicWrite?) ==> LastPublic(writes).Some?
    ensures LastPrivate(writes).None? ==> forall i | 0 <= i < |writes| :: writes[i].PublicWrite?
  {
    if writes != [] {
      LastWriters(calls, writes[..|writes| - 1]);
      forall i | 0 <= i < |writes| - 1 ensures writes[i] == writes[..|writes| - 1][i] {
      }
    }
  }

  /** The writes touch nothing but the one university. */
  lemma {:induction false} OverlapTouches(p: Primitives, master: seq<byte>, db: Db, vuz: Uuid, writes: seq<KeyWrite>)
    requires forall i | 0 <= i < |writes| :: writes[i].c.vuz == vuz
    ensures var end := OverlappingWrites(p, master, db, writes);
            && end.universities.Keys == db.universities.Keys
            && (forall v | v in db.universities && v != vuz :: end.universities[v] == db.universities[v])
            && (forall v | v != vuz :: (v in end.keys <==> v in db.keys) && (v in db.keys ==> end.keys[v] == db.keys[v]))
            && (LastPrivate(writes).None? ==> (vuz in end.keys <==> vuz in db.keys))
  {
    if writes != [] {
      OverlapTouches(p, master, db, vuz, writes[..|writes| - 1]);
    }
  }

  lemma SameKeysAlwaysFit(p: Primitives, master: seq<byte>, db: Db, vuz: Uuid, calls: set<Call>, writes: seq<KeyWrite>)
    requires LawfulCipher(p) && FirstCalls(p, db, vuz, calls) && SamePublicKey(p, calls) && Interleaving(calls, writes)
    requires KeysOk(p, Opener(p, master), db.universities, db.keys)
    ensures var end := OverlappingWrites(p, master, db, writes); KeysOk(p, Opener(p, master), end.universities, end.keys)
  {
    LastWriters(calls, writes);
    OverlapTouches(p, master, db, vuz, writes);
    if LastPrivate(writes).Some? {
      var j := PrivateIndex(writes);
      assert PublicWrite(writes[j].c) in writes;
      OverlapFitsExactly(p, master, db, vuz, writes);
    } else if writes != [] {
      assert ReadUniversity(p, db, writes[0].c) == Success(true);
    }
  }

  lemma {:induction false} PrivateIndex(writes: seq<KeyWrite>) returns (j: nat)
    requires LastPrivate(writes).Some?
    ensures j < |writes| && writes[j].PrivateWrite?
  {
    if writes[|writes| - 1].PrivateWrite? {
      j := |writes| - 1;
    } else {
      j := PrivateIndex(writes[..|writes| - 1]);
    }
  }

  lemma CrossingIsAnInterleaving(calls: set<Call>, a: Call, b: Call)
    requires a in calls && b in calls && a != b
    ensures Interleaving(calls, [PublicWrite(a), PublicWrite(b), PrivateWrite(b), PrivateWrite(a)])
  {
    var writes := [PublicWrite(a), PublicWrite(b), PrivateWrite(b), PrivateWrite(a)];
    assert writes[..2][1] == PublicWrite(b) && writes[..3][0] == PublicWrite(a);
  }

  /** Which first calls may overlap: every interleaving of them, crashes included, leaves fitting keys exactly if
      they all bring the same public key. */
  lemma {:induction false} OverlapAlwaysFitsExactly(p: Primitives, master: seq<byte>, db: Db, vuz: Uuid, calls: set<Call>)
    requires LawfulCipher(p) && FirstCalls(p, db, vuz, calls) && KeysOk(p, Opener(p, master), db.universities, db.keys)
    ensures AlwaysFits(p, master, db, calls) <==> SamePublicKey(p, calls)
  {
    if SamePublicKey(p, calls) {
      forall writes | Interleaving(calls, writes)
        ensures var end := OverlappingWrites(p, master, db, writes); KeysOk(p, Opener(p, master), end.universities, end.keys)
      {
        SameKeysAlwaysFit(p, master, db, vuz, calls, writes);
      }
    } else {
      var a, b :| a in calls && b in calls && Derived(p, a) != Derived(p, b);
      OverlapCanBreakKeys(p, master, db, a, b);
      CrossingIsAnInterleaving(calls, a, b);
    }
  }
}
