/** The verifier's objects that are filled in place: the diploma record (verification_service.go,
    verification_repository.go) and the decrypted payload (a256gcm.go). */
module PublicRecord {
  import opened Wrappers
  import opened Text
  import opened Crypto
  import opened Tables
  import V = Verification
  import Tk = Token

  /** A row of the verification query: hash, number, revocation, the university's code and name, a stored token. */
  datatype QueryRow = QueryRow(hash: string, number: string, revoked: bool, revokedAt: Option<int>, code: string, name: string,
                               qr: Option<string>)

  function RowAt(db: Db, key: RegistryKey, pick: Option<RowKey>): QueryRow
    requires V.Joined(db, key)
  {
    var e, u := db.registry[key], db.universities[key.vuz];
    QueryRow(e.hash, key.number, e.revoked, e.revokedAt, u.code, u.name,
             if pick.Some? && pick.value in db.results then db.results[pick.value].token else None)
  }

  class DiplomaRecord {
    var hash: string
    var number: string
    var status: V.DiplomaStatus
    var revokedAt: Option<int>
    var code: string
    var name: string
    var year: Option<int>
    var specialty: Option<string>
    var degree: Option<string>
    var faculty: Option<string>
    var qr: Option<string>

    function Value(): V.DiplomaRecord
      reads this
    {
      V.DiplomaRecord(hash, number, status, revokedAt, code, name, year, specialty, degree, faculty, qr)
    }

    constructor ()
      ensures Value() == V.DiplomaRecord("", "", V.NotFound, None, "", "", None, None, None, None, None)
    {
      hash, number, status, revokedAt, code, name := "", "", V.NotFound, None, "", "";
      year, specialty, degree, faculty, qr := None, None, None, None, None;
    }

    /** `fetchOne`, from a scanned row. */
    method Scan(row: QueryRow)
      modifies this
      ensures Value() == old(Value()).(hash := row.hash, number := row.number,
                status := if row.revoked then V.RevokedDiploma else V.Active,
                code := row.code, name := row.name,
                revokedAt := if row.revokedAt.Some? then row.revokedAt else old(revokedAt),
                qr := if row.qr.Some? then row.qr else old(qr))
    {
      hash, number := row.hash, row.number;
      status := if row.revoked then V.RevokedDiploma else V.Active;
      code, name := row.code, row.name;
      if row.revokedAt.Some? {
        revokedAt := row.revokedAt;
      }
      if row.qr.Some? {
        qr := row.qr;
      }
    }

    /** `applyEncryptedPayload`: only what the record lacks. */
    method ApplyEncryptedPayload(d: StudentDocument)
      modifies this
      ensures Value() == V.ApplyPayload(old(Value()), d)
    {
      hide Blank;
      if Blank(number) {
        number := d.number;
      }
      if year.None? && d.year != 0 {
        year := Some(d.year);
      }
      if specialty.None? && !Blank(d.specialty) {
        specialty := Some(d.specialty);
      }
      if degree.None? && !Blank(d.degree) {
        degree := Some(d.degree);
      }
      if faculty.None? && !Blank(d.faculty) {
        faculty := Some(d.faculty);
      }
    }

    /** `enrichRecordFromStoredQR`. */
    method EnrichFromStoredQr(p: Primitives, key: seq<byte>) returns (error: Option<V.VerifyError>)
      modifies this
      ensures match V.Enrich(p, key, old(Value()))
              case Success(r) => error.None? && Value() == r
              case Failure(e) => error == Some(e) && Value() == old(Value())
    {
      if qr.None? || Blank(qr.value) {
        return None;
      }
      if year.Some? && specialty.Some? && degree.Some? && faculty.Some? {
        return None;
      }
      var claims := Tk.DecodeUnverifiedJWT(p, qr.value);
      if claims.None? || Tk.ExtractOuterClaims(claims.value).None? {
        return Some(V.InvalidPayload(V.BadOuterClaims));
      }
      var d := Tk.DecryptDiplomaPayload(p, Tk.ExtractOuterClaims(claims.value).value.enc, key);
      if d.None? {
        return Some(V.InvalidPayload(V.Undecryptable));
      }
      ApplyEncryptedPayload(d.value);
      return None;
    }
  }

  /** Nothing that `ApplyEncryptedPayload` could fill is missing. */
  predicate Filled(r: V.DiplomaRecord) {
    !Blank(r.number) && r.year.Some? && r.specialty.Some? && r.degree.Some? && r.faculty.Some?
  }

  /** What was there stays: identity, status and token, and every field that had a value. */
  predicate Keeps(r: V.DiplomaRecord, f: V.DiplomaRecord) {
    && f == r.(number := f.number, year := f.year, specialty := f.specialty, degree := f.degree, faculty := f.faculty)
    && (!Blank(r.number) ==> f.number == r.number) && (r.year.Some? ==> f.year == r.year)
    && (r.specialty.Some? ==> f.specialty == r.specialty) && (r.degree.Some? ==> f.degree == r.degree)
    && (r.faculty.Some? ==> f.faculty == r.faculty)
  }

  lemma FillingKeeps(r: V.DiplomaRecord, d: StudentDocument)
    ensures Keeps(r, V.ApplyPayload(r, d))
  {
    hide Blank;
  }

  /** The first payload wins: another one, whatever it says, changes nothing exactly if the record lacks no field. */
  lemma {:induction false} FirstPayloadWins(r: V.DiplomaRecord)
    ensures Filled(r) <==> forall d: StudentDocument {:trigger V.ApplyPayload(r, d)} :: V.ApplyPayload(r, d) == r
  {
    if forall d: StudentDocument {:trigger V.ApplyPayload(r, d)} :: V.ApplyPayload(r, d) == r {
      var full := StudentDocument("x", "x", "x", "x", "x", "x", 1, "x");
      assert !Blank("x");
      assert V.ApplyPayload(r, full) == r;
    }
  }

  /** Completing a record from its stored token never touches what a lookup has read. */
  lemma {:induction false} EnrichingKeeps(p: Primitives, key: seq<byte>, r: V.DiplomaRecord)
    ensures V.Enrich(p, key, r).Success? ==> Keeps(r, V.Enrich(p, key, r).value)
  {
    hide Tk.DecryptDiplomaPayload;
    hide Tk.DecodeUnverifiedJWT;
    hide Tk.ExtractOuterClaims;
    hide V.ApplyPayload;
    forall d: StudentDocument ensures Keeps(r, V.ApplyPayload(r, d)) {
      FillingKeeps(r, d);
    }
  }

  /** A lookup scans the row the query picked into a new record. */
  method FetchOne(db: Db, key: RegistryKey, pick: Option<RowKey>) returns (record: DiplomaRecord)
    requires V.Joined(db, key)
    ensures fresh(record) && record.Value() == V.RecordAt(db, key, pick)
  {
    record := new DiplomaRecord();
    record.Scan(RowAt(db, key, pick));
  }

  class EncryptedPayload {
    var value: StudentDocument

    constructor (d: StudentDocument)
      ensures value == d
    {
      value := d;
    }

    /** `normalize`: trims both names, lets the one stand in for the other, refuses two different ones. */
    method Normalize() returns (ok: bool)
      modifies this
      ensures ok <==> Tk.Normalize(old(value)).Some?
      ensures ok ==> Some(value) == Tk.Normalize(old(value))
    {
      value := value.(fullName := Trim(value.fullName));
      value := value.(studentName := Trim(value.studentName));
      if value.fullName == "" && value.studentName != "" {
        value := value.(fullName := value.studentName);
      } else if value.fullName != "" && value.studentName != "" && value.fullName != value.studentName {
        return false;
      }
      return true;
    }
  }
}
