/** What the answer of a search means, over arbitrary tables and in reachable worlds. */
module Searching {
  import opened Wrappers
  import opened Text
  import opened Crypto
  import opened Canonical
  import opened Token
  import opened Tables
  import opened Protocol
  import opened ProtocolInvariant
  import opened ProtocolRuns
  import A = Acceptance
  import D = ReadPaths
  import R = RegistryRuns
  import V = Verification

  /** The diploma that code and number name, outer white space aside. */
  predicate Names(db: Db, k: RegistryKey, code: string, number: string) {
    k in db.registry && k.vuz in db.universities && db.universities[k.vuz].code == Trim(code) && k.number == Trim(number)
  }

  /** The stored token, read without looking at its signature, holds the document `d`. */
  ghost predicate Tells(p: Primitives, key: seq<byte>, token: string, d: StudentDocument) {
    && A.ClaimsOf(p, token).Some? && A.Complete(A.ClaimsOf(p, token).value)
    && A.Holds(p, key, A.Stated(A.ClaimsOf(p, token).value.enc), d)
  }

  /** The answer about a registered diploma, without and with a document. */
  function Bare(db: Db, k: RegistryKey): V.SearchResponse
    requires V.Joined(db, k)
  {
    var u, revoked := db.universities[k.vuz], db.registry[k].revoked;
    V.SearchResponse(!revoked, if revoked then V.RevokedDiploma else V.Active, u.name, u.code, None, None, None, None)
  }

  function Told(db: Db, k: RegistryKey, d: StudentDocument): V.SearchResponse
    requires V.Joined(db, k)
  {
    Bare(db, k).(year := if d.year == 0 then None else Some(d.year), specialty := if Blank(d.specialty) then None else Some(d.specialty),
                 degree := if Blank(d.degree) then None else Some(d.degree), faculty := if Blank(d.faculty) then None else Some(d.faculty))
  }

  function StoredToken(db: Db, pick: Option<RowKey>): string {
    if pick.Some? && pick.value in db.results && db.results[pick.value].token.Some? then db.results[pick.value].token.value else ""
  }

  lemma TellsExactly(p: Primitives, key: seq<byte>, token: string, d: StudentDocument)
    ensures var claims := DecodeUnverifiedJWT(p, token);
            Tells(p, key, token, d) <==>
              && claims.Some? && ExtractOuterClaims(claims.value).Some?
              && DecryptDiplomaPayload(p, ExtractOuterClaims(claims.value).value.enc, key) == Some(d)
  {
    hide SplitDots;
    hide DecodeUrl;
    hide A.Stated;
    hide A.Holds;
    hide ExtractOuterClaims;
    hide DecryptDiplomaPayload;
    if A.ClaimsOf(p, token).Some? {
      var c := A.ClaimsOf(p, token).value;
      A.OuterExactly(c);
      A.ClaimExactly(c.enc);
      if A.Complete(c) {
        A.DecryptExactly(p, A.Stated(c.enc), key, d);
      }
    }
  }

  /** A record that lacks year, specialty, degree or faculty is completed by a stored token that tells a document; if
      there is a token that tells none, the lookup fails; any other record is left alone. */
  lemma EnrichExactly(p: Primitives, key: seq<byte>, r: V.DiplomaRecord)
    ensures var token := if r.qr.Some? then r.qr.value else "";
            var needs := !Blank(token) && (r.year.None? || r.specialty.None? || r.degree.None? || r.faculty.None?);
            var e := V.Enrich(p, key, r);
            && (!needs ==> e == Success(r))
            && (forall d | needs && Tells(p, key, token, d) :: e == Success(V.ApplyPayload(r, d)))
            && (needs && (forall d :: !Tells(p, key, token, d)) ==> e.Failure? && e.error.InvalidPayload?)
  {
    hide DecodeUnverifiedJWT;
    hide ExtractOuterClaims;
    hide DecryptDiplomaPayload;
    hide Tells;
    hide V.ApplyPayload;
    hide Trim;
    TrimEmpty();
    var token := if r.qr.Some? then r.qr.value else "";
    forall d ensures Tells(p, key, token, d) <==>
                       && DecodeUnverifiedJWT(p, token).Some? && ExtractOuterClaims(DecodeUnverifiedJWT(p, token).value).Some?
                       && DecryptDiplomaPayload(p, ExtractOuterClaims(DecodeUnverifiedJWT(p, token).value).value.enc, key) == Some(d)
    {
      TellsExactly(p, key, token, d);
    }
  }

  lemma FoundExactly(db: Db, code: string, number: string)
    ensures var found := V.FindByNumber(db, Trim(code), Trim(number));
            && (found.None? <==> forall k :: !Names(db, k, code, number))
            && (found.Some? ==> Names(db, found.value, code, number))
            && (V.UniqueCodes(db.universities) ==> forall k | Names(db, k, code, number) :: found == Some(k))
  {
    hide Trim;
    var found := V.FindByNumber(db, Trim(code), Trim(number));
    forall k | Names(db, k, code, number) ensures found.Some? {
      assert V.Joined(db, k);
    }
    if found.None? {
      forall k ensures !Names(db, k, code, number) {
        assert V.Joined(db, k) ==> !(db.universities[k.vuz].code == Trim(code) && k.number == Trim(number));
      }
    } else {
      assert Names(db, found.value, code, number);
    }
  }

  /** `Search` in full: blank input is refused; if code and number name no diploma the answer is that there is none; else
      it is about the diploma named, valid exactly if that is not revoked, with the fields its stored token tells, and
      fails exactly if there is a stored token that tells nothing. */
  lemma {:induction false} SearchExactly(p: Primitives, db: Db, key: seq<byte>, code: string, number: string, pick: Option<RowKey>)
    requires V.UniqueCodes(db.universities)
    ensures var r, token := V.Search(p, db, key, code, number, pick), StoredToken(db, pick);
            && (r == Failure(V.InvalidInput) <==> Blank(code) || Blank(number))
            && (!Blank(code) && !Blank(number) ==>
                  && ((forall k :: !Names(db, k, code, number)) ==>
                        r == Success(V.SearchResponse(false, V.NotFound, "", "", None, None, None, None)))
                  && forall k | Names(db, k, code, number) ::
                       && (Blank(token) ==> r == Success(Bare(db, k)))
                       && (forall d | !Blank(token) && Tells(p, key, token, d) :: r == Success(Told(db, k, d)))
                       && (!Blank(token) && (forall d :: !Tells(p, key, token, d)) ==> r.Failure?))
  {
    hide Trim;
    hide V.FindByNumber;
    hide V.Enrich;
    hide Tells;
    hide Names;
    TrimEmpty();
    FoundExactly(db, code, number);
    var found := V.FindByNumber(db, Trim(code), Trim(number));
    if found.Some? {
      NamedIsJoined(db, found.value, code, number);
      var r, token := V.RecordAt(db, found.value, pick), StoredToken(db, pick);
      EnrichExactly(p, key, r);
      assert token == if r.qr.Some? then r.qr.value else "";
      forall k | Names(db, k, code, number) && !Blank(code) && !Blank(number)
        ensures Blank(token) ==> V.Search(p, db, key, code, number, pick) == Success(Bare(db, k))
        ensures forall d | !Blank(token) && Tells(p, key, token, d) ::
                  V.Search(p, db, key, code, number, pick) == Success(Told(db, k, d))
        ensures !Blank(token) && (forall d :: !Tells(p, key, token, d)) ==> V.Search(p, db, key, code, number, pick).Failure?
      {
        assert found == Some(k);
        forall d | !Blank(token) && Tells(p, key, token, d)
          ensures V.Search(p, db, key, code, number, pick) == Success(Told(db, k, d))
        {
          assert V.Enrich(p, key, r) == Success(V.ApplyPayload(r, d));
        }
      }
    }
  }

  lemma NamedIsJoined(db: Db, k: RegistryKey, code: string, number: string)
    requires Names(db, k, code, number)
    ensures V.Joined(db, k)
  {
  }

  /** Over any tables: a search that answers valid has found a diploma that code and number name and that is not revoked. */
  lemma {:induction false} ValidIsNamed(p: Primitives, db: Db, key: seq<byte>, code: string, number: string, pick: Option<RowKey>)
    requires V.Search(p, db, key, code, number, pick).Success? && V.Search(p, db, key, code, number, pick).value.valid
    ensures exists k :: Names(db, k, code, number) && !db.registry[k].revoked
  {
    hide Trim;
    hide V.FindByNumber;
    hide V.Enrich;
    FoundExactly(db, code, number);
    var found := V.FindByNumber(db, Trim(code), Trim(number));
    if found.Some? && V.Enrich(p, key, V.RecordAt(db, found.value, pick)).Success? {
      R.EnrichKeepsStatus(p, key, V.RecordAt(db, found.value, pick));
    }
  }

  /** In every reachable world a number is only found valid if it was uploaded by the university with that code. */
  lemma {:induction false} ValidWasUploaded(cfg: Config, actions: seq<Action>, key: seq<byte>, code: string, number: string,
                                            pick: Option<RowKey>)
    requires ConfigOk(cfg)
    requires var r := V.Search(cfg.p, Run(cfg, INITIAL, actions).db, key, code, number, pick); r.Success? && r.value.valid
    ensures var w := Run(cfg, INITIAL, actions);
            exists b, i :: && b in w.uploads && 0 <= i < |w.uploads[b].records| && w.uploads[b].records[i].number == Trim(number)
                           && w.uploads[b].vuz in w.db.universities && w.db.universities[w.uploads[b].vuz].code == Trim(code)
  {
    hide Run;
    hide V.Search;
    hide Trim;
    var w := Run(cfg, INITIAL, actions);
    Reachable(cfg, actions);
    ValidIsNamed(cfg.p, w.db, key, code, number, pick);
    var k :| Names(w.db, k, code, number) && !w.db.registry[k].revoked;
    Origin(cfg, w, k);
    var b, i :| IsOrigin(cfg, w.uploads, b, i, k, w.db.registry[k].hash);
  }

  lemma Origin(cfg: Config, w: World, k: RegistryKey)
    requires Inv(cfg, w) && k in w.db.registry
    ensures exists b, i :: IsOrigin(cfg, w.uploads, b, i, k, w.db.registry[k].hash)
  {
  }

  /** A worker token in store: the lookup succeeds exactly if the record has all that a document must have. */
  lemma EnrichDecided(p: Primitives, key: seq<byte>, r: V.DiplomaRecord, sk: PrivateKey, t: Stamp, s: Student, vuz: Uuid)
    requires Lawful(p) && ValidStamp(t) && !Blank(s.number)
    requires r.qr == Some(IssueToken(p, key, sk, t, s, vuz)) && r.year.None?
    ensures V.Enrich(p, key, r).Success? <==> Complete(s)
  {
    hide IssueToken;
    hide DecodeUnverifiedJWT;
    hide ExtractOuterClaims;
    hide DecryptDiplomaPayload;
    hide Trim;
    D.WorkerTokenOpens(p, key, sk, t, s, vuz);
  }

  lemma SearchOfNamed(p: Primitives, db: Db, key: seq<byte>, k: RegistryKey, pick: Option<RowKey>)
    requires V.Joined(db, k) && V.UniqueCodes(db.universities) && !Blank(k.number)
    requires Trim(db.universities[k.vuz].code) == db.universities[k.vuz].code != "" && Trim(k.number) == k.number
    ensures V.Search(p, db, key, db.universities[k.vuz].code, k.number, pick).Success? <==>
              V.Enrich(p, key, V.RecordAt(db, k, pick)).Success?
  {
    hide V.Enrich;
    hide Trim;
    FoundExactly(db, db.universities[k.vuz].code, k.number);
    assert Names(db, k, db.universities[k.vuz].code, k.number);
  }

  /** In every reachable world the search for a registered number fails exactly if the ok row that the lookup picks is
      that of a record without name, specialty or year: the worker has accepted it, and its document is refused. */
  lemma {:induction false} SearchSucceedsExactly(cfg: Config, key: seq<byte>, actions: seq<Action>, k: RegistryKey, pick: Option<RowKey>)
    requires D.DeployedWith(cfg, key) && k in Run(cfg, INITIAL, actions).db.registry && Trim(k.number) == k.number
    requires var db := Run(cfg, INITIAL, actions).db;
             && V.PickedRow(db, db.registry[k].hash, pick) && k.vuz in db.universities
             && Trim(db.universities[k.vuz].code) == db.universities[k.vuz].code != ""
    ensures var w := Run(cfg, INITIAL, actions);
            && (pick.Some? ==> pick.value.batch in w.uploads && pick.value.index < |w.uploads[pick.value.batch].records|)
            && (V.Search(cfg.p, w.db, key, w.db.universities[k.vuz].code, k.number, pick).Success? <==>
                  pick.None? || Complete(w.uploads[pick.value.batch].records[pick.value.index]))
  {
    hide *;
    var w := Run(cfg, INITIAL, actions);
    D.DeployedLaws(cfg, key);
    Reachable(cfg, actions);
    EntryParts(cfg, w, k);
    SearchOfNamed(cfg.p, w.db, key, k, pick);
    RecordParts(w.db, k, pick);
    if pick.Some? {
      D.PickedMeans(w.db, w.db.registry[k].hash, pick.value);
      D.RowRecord(cfg, w, pick.value);
      var sk, t := D.OkRowIsIssued(cfg, key, w, pick.value);
      D.StoredMeans(cfg.p, key, w.db, pick.value, sk, t);
      EnrichDecided(cfg.p, key, V.RecordAt(w.db, k, pick), sk, t, w.db.payloads[pick.value], w.db.batches[pick.value.batch].vuz);
    } else {
      NothingToEnrich(cfg.p, key, V.RecordAt(w.db, k, pick));
    }
  }

  lemma EntryParts(cfg: Config, w: World, k: RegistryKey)
    requires Inv(cfg, w) && k in w.db.registry
    ensures V.Joined(w.db, k) && V.UniqueCodes(w.db.universities) && !Blank(k.number)
  {
  }

  lemma RecordParts(db: Db, k: RegistryKey, pick: Option<RowKey>)
    requires V.Joined(db, k)
    ensures V.RecordAt(db, k, pick).qr == if pick.Some? && pick.value in db.results then db.results[pick.value].token else None
    ensures V.RecordAt(db, k, pick).year.None?
  {
  }

  lemma NothingToEnrich(p: Primitives, key: seq<byte>, r: V.DiplomaRecord)
    requires r.qr.None?
    ensures V.Enrich(p, key, r).Success?
  {
  }
}
