/** The rows of a batch download (`GetBatchDownloadRows`): what the tables and, failing that, the QR token say
    about each record. */
module Download {
  import opened Wrappers
  import opened Text
  import opened Crypto
  import opened Tables
  import V = Verification

  /** The record fields of a download row; unset fields are "" and 0. */
  datatype Fields = Fields(fullName: string, number: string, specialty: string, degree: string, faculty: string, year: int)

  const UNSET := Fields("", "", "", "", "", 0)

  datatype ItemStatus = ItemError | ItemOk | DiplomaActive | DiplomaRevoked

  datatype Item = Item(index: nat, hash: string, qr: string, status: ItemStatus, error: Option<string>, fields: Fields)

  function FieldsOf(s: Student): Fields {
    Fields(s.fullName, s.number, s.specialty, s.degree, s.faculty, s.year)
  }

  function DocumentFields(d: StudentDocument): Fields {
    Fields(d.fullName, d.number, d.specialty, d.degree, d.faculty, d.year)
  }

  function FirstNonEmpty(a: string, b: string): string {
    if !Blank(a) then a else if !Blank(b) then b else ""
  }

  function FirstNonZero(a: int, b: int): int {
    if a != 0 then a else b
  }

  predicate Incomplete(f: Fields) {
    f.fullName == "" || f.number == "" || f.specialty == "" || f.degree == "" || f.faculty == "" || f.year == 0
  }

  function FillFrom(f: Fields, g: Fields): Fields {
    Fields(FirstNonEmpty(f.fullName, g.fullName), FirstNonEmpty(f.number, g.number),
           FirstNonEmpty(f.specialty, g.specialty), FirstNonEmpty(f.degree, g.degree),
           FirstNonEmpty(f.faculty, g.faculty), FirstNonZero(f.year, g.year))
  }

  predicate HashRevoked(registry: Registry, hash: string) {
    exists k :: k in registry && registry[k].hash == hash && registry[k].revoked
  }

  function StatusOf(registry: Registry, row: Row): ItemStatus {
    if row.status == Error then ItemError
    else if row.hash.None? || !HashTaken(registry, row.hash.value) then ItemOk
    else if HashRevoked(registry, row.hash.value) then DiplomaRevoked else DiplomaActive
  }

  /** How the gateway reads a token: university and document, or an error. */
  type Decoder = string -> Option<(string, StudentDocument)>

  /** The token's fields stand in for stored fields that are empty. */
  function WithFallback(decode: Decoder, stored: Fields, token: Option<string>): Option<Fields> {
    if token.None? || Blank(token.value) || !Incomplete(stored) then Some(stored)
    else
      var read := decode(token.value);
      if read.None? then None else Some(FillFrom(stored, DocumentFields(read.value.1)))
  }

  /** One download row, or None where the source returns the decoder's error. */
  function ItemFor(decode: Decoder, registry: Registry, stored: Option<Student>, index: nat, row: Row): Option<Item> {
    var fields := WithFallback(decode, if stored.Some? then FieldsOf(stored.value) else UNSET, row.token);
    if fields.None? then None
    else Some(Item(index, if row.hash.Some? then row.hash.value else "",
                   if row.token.Some? && !Blank(row.token.value) then row.token.value else "",
                   StatusOf(registry, row), row.error, fields.value))
  }

  function StoredRecord(db: Db, k: RowKey): Option<Student> {
    if k in db.payloads then Some(db.payloads[k]) else None
  }

  /** Blank fields show as "". */
  function Tidied(f: Fields): Fields {
    var tidy := (s: string) => if Blank(s) then "" else s;
    Fields(tidy(f.fullName), tidy(f.number), tidy(f.specialty), tidy(f.degree), tidy(f.faculty), f.year)
  }

  /** A document that differs from the stored record at most by trimming the name only tidies it. */
  lemma FallbackOnlyTidies(s: Student, d: StudentDocument)
    requires DocumentFields(d) == FieldsOf(s).(fullName := Trim(s.fullName))
    ensures FillFrom(FieldsOf(s), DocumentFields(d)) == Tidied(FieldsOf(s))
  {
    TrimIdempotent(s.fullName);
  }

  /** The status a row shows, over any registry with unique hashes: that of the diploma registered under its hash, plain
      ok if none is, and the error of an error row. */
  lemma StatusExactly(registry: Registry, row: Row)
    requires V.UniqueHashes(registry)
    ensures row.status == Error ==> StatusOf(registry, row) == ItemError
    ensures row.status == Ok && (row.hash.None? || forall k | k in registry :: registry[k].hash != row.hash.value) ==>
              StatusOf(registry, row) == ItemOk
    ensures forall k | row.status == Ok && k in registry && row.hash == Some(registry[k].hash) ::
              StatusOf(registry, row) == if registry[k].revoked then DiplomaRevoked else DiplomaActive
  {
  }

  /** Without a stored record a row shows what its token says; without either it shows nothing. */
  lemma {:induction false} WithoutRecord(decode: Decoder, registry: Registry, index: nat, row: Row)
    ensures var item := ItemFor(decode, registry, None, index, row);
            var token := if row.token.Some? then row.token.value else "";
            && (Blank(token) ==> item.Some? && item.value.fields == UNSET)
            && (!Blank(token) && decode(token).None? ==> item.None?)
            && (!Blank(token) && decode(token).Some? ==> item.Some? && item.value.fields == Tidied(DocumentFields(decode(token).value.1)))
  {
    TrimEmpty();
    hide Trim;
  }
}
