/** What either persist path stores for a message, spelled out row by row. */
module Persisting {
  import opened Wrappers
  import opened Text
  import opened Crypto
  import opened Tables

  /** The worker stores what it has come to: hash and token, or the error's text as it is. */
  lemma {:induction false} WorkerStoresExactly(db: Db, m: Message, now: int)
    ensures var r := Persist(db, m, now);
            && (KeyOf(m) in db.results ==> r == Success(db))
            && (KeyOf(m) !in db.results && m.batch !in db.batches ==> r == Failure(ForeignKeyViolation))
            && (KeyOf(m) !in db.results && m.batch in db.batches ==>
                  && r.Success? && r.value == db.(results := r.value.results, batches := r.value.batches)
                  && r.value.results == db.results[RowKey(m.batch, m.index) :=
                       if m.status == Ok then Row(Ok, Some(m.hash), m.token, None)
                       else Row(Error, None, None, Some(if m.error.Some? then m.error.value else "processing error"))])
  {
    if KeyOf(m) !in db.results && m.batch in db.batches {
      PersistRowShape(db, KeyOf(m), WorkerVerdict(m).row, now);
    }
  }

  /** The result is ok, complete, and its token is for a number of the university it names, if it names one. */
  predicate Plausible(parse: string -> Option<Parsed>, m: Message) {
    && m.status == Ok && m.token.Some? && !Blank(m.hash) && parse(m.token.value).Some?
    && var q := parse(m.token.value).value;
    && !Blank(q.number) && (Blank(q.vuz) || q.vuz == m.vuz)
  }

  /** Why the gateway stores an error for a result that is not plausible. */
  function Complaint(parse: string -> Option<Parsed>, m: Message): string
    requires !Plausible(parse, m)
  {
    if m.status == Ok && m.token.Some? && !Blank(m.hash) then
      (if parse(m.token.value).Some? && !Blank(parse(m.token.value).value.number) then "qr payload university mismatch"
       else "qr payload does not contain diploma number")
    else if m.error.Some? && Trim(m.error.value) != "" then Trim(m.error.value)
    else "processing error"
  }

  /** The row for a plausible result: ok if its hash is the number's, be it registered or new. */
  function PlausibleRow(registry: Registry, k: RegistryKey, m: Message): Row {
    if k in registry && registry[k].hash != m.hash then Row(Error, None, None, Some("diploma number already exists"))
    else Row(Ok, Some(m.hash), m.token, None)
  }

  /** The gateway stores an error for an implausible result and registers nothing. For a plausible one it registers a new
      number under the result's hash, and rolls back if that hash is taken or the university gone. */
  lemma {:induction false} GatewayStoresExactly(db: Db, parse: string -> Option<Parsed>, m: Message, now: int)
    requires KeyOf(m) !in db.results && m.batch in db.batches
    ensures var r, key := GatewayApply(db, parse, m, now), RowKey(m.batch, m.index);
            && (!Plausible(parse, m) ==>
                  && r.Success? && r.value == db.(results := r.value.results, batches := r.value.batches)
                  && r.value.results == db.results[key := Row(Error, None, None, Some(Complaint(parse, m)))])
            && (Plausible(parse, m) ==>
                  var k := RegistryKey(m.vuz, parse(m.token.value).value.number);
                  && (k !in db.registry && (exists l :: l in db.registry && db.registry[l].hash == m.hash) ==>
                        r == Failure(UniqueViolation))
                  && (k !in db.registry && m.vuz !in db.universities ==> r.Failure?)
                  && (r.Failure? ==> k !in db.registry && (HashTaken(db.registry, m.hash) || m.vuz !in db.universities))
                  && (r.Success? ==>
                        && r.value == db.(results := r.value.results, batches := r.value.batches, registry := r.value.registry)
                        && r.value.results == db.results[key := PlausibleRow(db.registry, k, m)]
                        && r.value.registry == if k in db.registry then db.registry else db.registry[k := Entry(m.hash, false, None)]))
  {
    hide Trim;
    hide Close;
    match GatewayVerdict(parse, m)
    case Write(row) => PersistRowShape(db, KeyOf(m), row, now);
    case Register(k, hash, token) =>
      if k in db.registry {
        PersistRowShape(db, KeyOf(m), if db.registry[k].hash == hash then OkRow(hash, token) else DUPLICATE_NUMBER, now);
      } else if InsertHash(db, k, hash).Success? {
        PersistRowShape(InsertHash(db, k, hash).value, KeyOf(m), OkRow(hash, token), now);
      }
  }

  /** A result whose row is there changes nothing; one whose batch is gone is rolled back unless it is rolled back before. */
  lemma {:induction false} GatewayLeavesExactly(db: Db, parse: string -> Option<Parsed>, m: Message, now: int)
    ensures KeyOf(m) in db.results ==> GatewayApply(db, parse, m, now) == Success(db)
    ensures KeyOf(m) !in db.results && m.batch !in db.batches ==> GatewayApply(db, parse, m, now).Failure?
  {
    hide GatewayVerdict;
  }
}
