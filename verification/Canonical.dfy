/** The canonical diploma string and its hash: issuing side (hashing.rs) and verifying side (hash.go). */
module Canonical {
  import opened Wrappers
  import opened Text
  import opened Crypto

  // ---- issuing side: no trimming except inside the salt ----

  function SaltInput(vuz: Uuid, number: string): string {
    "diasoft|" + vuz + "|" + Trim(number)
  }

  function CanonicalString(s: Student, vuz: Uuid, salt: string): string {
    Join([s.number, s.fullName, s.specialty, s.degree, s.faculty, Itoa(s.year), vuz, salt])
  }

  /** The string the worker hashes for a record whose number is not blank. */
  function Issued(p: Primitives, s: Student, vuz: Uuid): string {
    CanonicalString(s, vuz, p.sha(SaltInput(vuz, s.number)))
  }

  function IssuedHash(p: Primitives, s: Student, vuz: Uuid): string {
    p.sha(Issued(p, s, vuz))
  }

  // ---- verifying side: every part trimmed ----

  datatype HashInput = HashInput(fullName: string, number: string, specialty: string, degree: string,
                                 faculty: string, year: int, vuz: string, salt: string)

  datatype InputError = EmptyFullName | EmptyNumber | EmptySpecialty | BadYear | EmptyVuz | EmptySalt

  function ValidateCore(fullName: string, number: string, specialty: string, year: int): Option<InputError> {
    if Blank(fullName) then Some(EmptyFullName)
    else if Blank(number) then Some(EmptyNumber)
    else if Blank(specialty) then Some(EmptySpecialty)
    else if year <= 0 then Some(BadYear)
    else None
  }

  function Validate(i: HashInput): Option<InputError> {
    var core := ValidateCore(i.fullName, i.number, i.specialty, i.year);
    if core.Some? then core
    else if Blank(i.vuz) then Some(EmptyVuz)
    else if Blank(i.salt) then Some(EmptySalt)
    else None
  }

  function BuildRawDiplomaString(i: HashInput): Result<string, InputError> {
    var bad := Validate(i);
    if bad.Some? then Failure(bad.value)
    else Success(Join([Trim(i.number), Trim(i.fullName), Trim(i.specialty), Trim(i.degree), Trim(i.faculty),
                       Itoa(i.year), Trim(i.vuz), Trim(i.salt)]))
  }

  function HashDiplomaInput(p: Primitives, i: HashInput): Result<string, InputError> {
    var raw :- BuildRawDiplomaString(i);
    Success(p.sha(raw))
  }

  /** The verifier hashes exactly the inputs with a name, a number, a specialty, a year above 0, a university and a
      salt, and names the first of these that is missing. */
  lemma {:induction false} HashedExactly(p: Primitives, i: HashInput)
    ensures var r := HashDiplomaInput(p, i);
            var texts := [i.fullName, i.number, i.specialty];
            && (r.Success? <==> (forall j | 0 <= j < 3 :: !Blank(texts[j])) && i.year >= 1 && !Blank(i.vuz) && !Blank(i.salt))
            && (r == Failure(EmptyFullName) <==> Blank(i.fullName))
            && (r == Failure(EmptyNumber) <==> !Blank(i.fullName) && Blank(i.number))
            && (r == Failure(EmptySpecialty) <==> !Blank(i.fullName) && !Blank(i.number) && Blank(i.specialty))
            && (r == Failure(BadYear) <==> (forall j | 0 <= j < 3 :: !Blank(texts[j])) && i.year < 1)
            && (r == Failure(EmptyVuz) <==> (forall j | 0 <= j < 3 :: !Blank(texts[j])) && i.year >= 1 && Blank(i.vuz))
            && (r == Failure(EmptySalt) <==> (forall j | 0 <= j < 3 :: !Blank(texts[j])) && i.year >= 1 && !Blank(i.vuz) && Blank(i.salt))
  {
    hide Trim;
    var texts := [i.fullName, i.number, i.specialty];
    assert texts[0] == i.fullName && texts[1] == i.number && texts[2] == i.specialty;
  }

  // ---- what equal canonical strings say ----

  /** The four free-text fields as they stand in the canonical string. */
  function FreeText(s: Student): string {
    Join([s.fullName, s.specialty, s.degree, s.faculty])
  }

  function Prefix(s: Student): string {
    s.number + "|" + FreeText(s)
  }

  lemma CanonicalShape(s: Student, vuz: Uuid, salt: string)
    ensures CanonicalString(s, vuz, salt) == Prefix(s) + "|" + Itoa(s.year) + ("|" + vuz + "|" + salt)
  {
    var text := [s.fullName, s.specialty, s.degree, s.faculty];
    var tail := [Itoa(s.year), vuz, salt];
    JoinThree(Itoa(s.year), vuz, salt);
    JoinConcat(text, tail);
    assert [s.number, s.fullName, s.specialty, s.degree, s.faculty, Itoa(s.year), vuz, salt] == [s.number] + (text + tail);
    JoinConcat([s.number], text + tail);
  }

  lemma JoinThree(a: string, b: string, c: string)
    ensures Join([a, b, c]) == a + ("|" + b + "|" + c)
  {
    JoinConcat([b], [c]);
    JoinConcat([a], [b, c]);
    assert [a] + [b, c] == [a, b, c] && [b] + [c] == [b, c];
  }

  lemma {:induction false} JoinConcat(a: seq<string>, b: seq<string>)
    requires a != [] && b != []
    ensures Join(a + b) == Join(a) + "|" + Join(b)
  {
    if |a| == 1 {
      assert (a + b)[1..] == b;
    } else {
      assert (a + b)[1..] == a[1..] + b;
      JoinConcat(a[1..], b);
    }
  }

  /** A number is fixed by its trimmed form and the text around it, whatever spaces it carries. */
  lemma NumberFixed(m: string, x: string, n: string, y: string)
    requires m + "|" + x == n + "|" + y
    requires Trim(m) == Trim(n) != ""
    ensures m == n && x == y
  {
    if |m| < |n| {
      CutTooEarly(m, x, n, y);
      SpaceAfterTrimmed(m, n);
    } else if |n| < |m| {
      CutTooEarly(n, y, m, x);
      SpaceAfterTrimmed(n, m);
    }
    var s := m + "|" + x;
    assert s[..|m|] == m && s[..|m|] == n;
    assert s[|m| + 1..] == x && s[|m| + 1..] == y;
  }

  lemma SpaceAfterTrimmed(m: string, n: string)
    requires |m| < |n| && n[..|m|] == m
    requires Trim(m) == Trim(n) != ""
    ensures IsSpace(n[|m|])
  {
    var t := Trim(m);
    var i := TrimShape(m);
    var j := TrimShape(n);
    assert m[i] == m[i..i + |t|][0] && n[j] == n[j..j + |t|][0];
    assert !IsSpace(n[i]);
    assert j <= i;
    assert m[j] == n[j];
    assert i <= j;
  }

  /** Equal canonical strings determine university, number and year, whatever '|' the free text holds, and
      the free text as one string: exactly those, provided the two salts do not collide. */
  lemma CanonicalDetermines(p: Primitives, a: Student, va: Uuid, b: Student, vb: Uuid)
    requires LawfulHash(p)
    requires !Blank(a.number) && !Blank(b.number)
    requires CollisionFree(p, {SaltInput(va, a.number), SaltInput(vb, b.number)})
    ensures Issued(p, a, va) == Issued(p, b, vb)
       <==> va == vb && a.number == b.number && a.year == b.year && FreeText(a) == FreeText(b)
  {
    var sa, sb := p.sha(SaltInput(va, a.number)), p.sha(SaltInput(vb, b.number));
    CanonicalShape(a, va, sa);
    CanonicalShape(b, vb, sb);
    if Issued(p, a, va) == Issued(p, b, vb) {
      var ta, tb := "|" + va + "|" + sa, "|" + vb + "|" + sb;
      CutSuffix(Prefix(a) + "|" + Itoa(a.year), ta, Prefix(b) + "|" + Itoa(b.year), tb);
      CutSuffix("|" + va + "|", sa, "|" + vb + "|", sb);
      CutSuffix("|" + va, "|", "|" + vb, "|");
      CutSuffix("|", va, "|", vb);
      ItoaDigits(a.year);
      ItoaDigits(b.year);
      CutAtLast(Prefix(a), Itoa(a.year), Prefix(b), Itoa(b.year));
      ItoaInjective(a.year, b.year);
      assert SaltInput(va, a.number) == SaltInput(vb, b.number);
      CutSuffixAfter("diasoft|" + va + "|", Trim(a.number), Trim(b.number));
      NumberFixed(a.number, FreeText(a), b.number, FreeText(b));
    }
  }

  lemma CutSuffixAfter(head: string, x: string, y: string)
    requires head + x == head + y
    ensures x == y
  {
    assert (head + x)[|head|..] == x && (head + y)[|head|..] == y;
  }

  predicate SameFreeFields(a: Student, b: Student) {
    a.fullName == b.fullName && a.specialty == b.specialty && a.degree == b.degree && a.faculty == b.faculty
  }

  lemma FreeTextShape(s: Student)
    ensures FreeText(s) == s.fullName + "|" + (s.specialty + "|" + (s.degree + "|" + s.faculty))
  {
    assert [s.degree] + [s.faculty] == [s.degree, s.faculty];
    JoinConcat([s.degree], [s.faculty]);
    assert [s.specialty] + [s.degree, s.faculty] == [s.specialty, s.degree, s.faculty];
    JoinConcat([s.specialty], [s.degree, s.faculty]);
    assert [s.fullName] + [s.specialty, s.degree, s.faculty] == [s.fullName, s.specialty, s.degree, s.faculty];
    JoinConcat([s.fullName], [s.specialty, s.degree, s.faculty]);
  }

  /** The free fields are the same exactly when the joined text is and each field but the last holds as many '|'. */
  lemma FreeTextDetermines(a: Student, b: Student)
    ensures SameFreeFields(a, b) <==>
              && FreeText(a) == FreeText(b)
              && Pipes(a.fullName) == Pipes(b.fullName)
              && Pipes(a.specialty) == Pipes(b.specialty)
              && Pipes(a.degree) == Pipes(b.degree)
  {
    FreeTextShape(a);
    FreeTextShape(b);
    if FreeText(a) == FreeText(b) && Pipes(a.fullName) == Pipes(b.fullName)
      && Pipes(a.specialty) == Pipes(b.specialty) && Pipes(a.degree) == Pipes(b.degree)
    {
      CutByCount(a.fullName, a.specialty + "|" + (a.degree + "|" + a.faculty),
                 b.fullName, b.specialty + "|" + (b.degree + "|" + b.faculty));
      CutByCount(a.specialty, a.degree + "|" + a.faculty, b.specialty, b.degree + "|" + b.faculty);
      CutByCount(a.degree, a.faculty, b.degree, b.faculty);
    }
  }

  predicate PipeFree(s: Student) {
    Pipes(s.fullName) == 0 && Pipes(s.specialty) == 0 && Pipes(s.degree) == 0 && Pipes(s.faculty) == 0
  }

  lemma FreeTextPipes(s: Student)
    ensures Pipes(FreeText(s)) == Pipes(s.fullName) + Pipes(s.specialty) + Pipes(s.degree) + Pipes(s.faculty) + 3
  {
    FreeTextShape(s);
    PipesAround(s.degree, s.faculty);
    PipesAround(s.specialty, s.degree + "|" + s.faculty);
    PipesAround(s.fullName, s.specialty + "|" + (s.degree + "|" + s.faculty));
  }

  lemma PipesAround(a: string, b: string)
    ensures Pipes(a + "|" + b) == Pipes(a) + 1 + Pipes(b)
  {
    PipesConcat(a + "|", b);
    PipesConcat(a, "|");
    assert "|"[1..] == "";
  }

  /** One '|'-free record already forces any record with the same canonical string to be the same record. */
  lemma PipeFreeDetermines(p: Primitives, a: Student, va: Uuid, b: Student, vb: Uuid)
    requires LawfulHash(p)
    requires !Blank(a.number) && !Blank(b.number) && PipeFree(a)
    requires CollisionFree(p, {SaltInput(va, a.number), SaltInput(vb, b.number)})
    requires Issued(p, a, va) == Issued(p, b, vb)
    ensures a == b && va == vb
  {
    CanonicalDetermines(p, a, va, b, vb);
    FreeTextPipes(a);
    FreeTextPipes(b);
    FreeTextDetermines(a, b);
  }

  lemma SameTextSameString(p: Primitives, vuz: Uuid, a: Student, b: Student)
    requires a.number == b.number && a.year == b.year && FreeText(a) == FreeText(b)
    ensures Issued(p, a, vuz) == Issued(p, b, vuz)
  {
    var salt := p.sha(SaltInput(vuz, a.number));
    CanonicalShape(a, vuz, salt);
    CanonicalShape(b, vuz, salt);
  }

  lemma MoveText(u: string, v: string, w: string, rest: string)
    ensures u + "|" + v + "|" + (w + "|" + rest) == u + "|" + (v + "|" + w + "|" + rest)
  {
  }

  lemma MoveLast(u: string, v: string, w: string)
    ensures u + "|" + v + "|" + w == u + "|" + (v + "|" + w)
  {
  }

  /** A '|' in any free field lets text move to a neighbouring field. */
  lemma TextMoves(a: Student) returns (b: Student)
    requires !PipeFree(a)
    ensures b.number == a.number && b.year == a.year && FreeText(b) == FreeText(a) && !SameFreeFields(a, b)
  {
    hide FreeText;
    FreeTextShape(a);
    if Pipes(a.fullName) > 0 {
      var x, y := FirstPipe(a.fullName);
      b := a.(fullName := x, specialty := y + "|" + a.specialty);
      MoveText(x, y, a.specialty, a.degree + "|" + a.faculty);
    } else if Pipes(a.specialty) > 0 {
      var x, y := FirstPipe(a.specialty);
      b := a.(specialty := x, degree := y + "|" + a.degree);
      MoveText(x, y, a.degree, a.faculty);
    } else if Pipes(a.degree) > 0 {
      var x, y := FirstPipe(a.degree);
      b := a.(degree := x, faculty := y + "|" + a.faculty);
      MoveLast(x, y, a.faculty);
    } else {
      var x, y := FirstPipe(a.faculty);
      b := a.(degree := a.degree + "|" + x, faculty := y);
      MoveLast(a.degree, x, y);
    }
    FreeTextShape(b);
  }

  /** With a '|' in a free field the fields are not determined: some other record has the same canonical string. */
  lemma FreeFieldsCanMove(p: Primitives, a: Student, vuz: Uuid) returns (b: Student)
    requires !PipeFree(a)
    ensures b != a && b.number == a.number && Issued(p, b, vuz) == Issued(p, a, vuz)
  {
    b := TextMoves(a);
    SameTextSameString(p, vuz, a, b);
  }

  /** The canonical string determines the record exactly if no free field holds a '|'. */
  lemma {:induction false} DeterminedExactly(p: Primitives, a: Student, va: Uuid)
    requires LawfulHash(p) && !Blank(a.number)
    ensures PipeFree(a) <==>
              forall b: Student, vb: Uuid {:trigger Issued(p, b, vb)} |
                !Blank(b.number) && CollisionFree(p, {SaltInput(va, a.number), SaltInput(vb, b.number)})
                && Issued(p, b, vb) == Issued(p, a, va) ::
                b == a && vb == va
  {
    hide PipeFree;
    hide Issued;
    hide SaltInput;
    if PipeFree(a) {
      forall b: Student, vb: Uuid |
        !Blank(b.number) && CollisionFree(p, {SaltInput(va, a.number), SaltInput(vb, b.number)}) && Issued(p, b, vb) == Issued(p, a, va)
        ensures b == a && vb == va
      {
        PipeFreeDetermines(p, a, va, b, vb);
      }
    } else {
      var b := FreeFieldsCanMove(p, a, va);
    }
  }

  // ---- when the two sides build the same string ----

  function InputFor(s: Student, vuz: Uuid, salt: string): HashInput {
    HashInput(s.fullName, s.number, s.specialty, s.degree, s.faculty, s.year, vuz, salt)
  }

  predicate Trimmed(s: string) {
    Trim(s) == s
  }

  predicate AllTrimmed(s: Student) {
    Trimmed(s.fullName) && Trimmed(s.number) && Trimmed(s.specialty) && Trimmed(s.degree) && Trimmed(s.faculty)
  }

  predicate Complete(s: Student) {
    !Blank(s.fullName) && !Blank(s.specialty) && s.year > 0
  }

  function TrimAll(s: Student): Student {
    Student(Trim(s.fullName), Trim(s.number), Trim(s.specialty), Trim(s.degree), Trim(s.faculty), s.year)
  }

  lemma HexIsNotSpace(c: char)
    requires IsLowerHex(c) || c == '-'
    ensures !IsSpace(c)
  {
    assert c as int == 45 || 48 <= c as int <= 57 || 97 <= c as int <= 102;
  }

  lemma HexIsTrimmed(s: string)
    requires s != "" && forall i | 0 <= i < |s| :: IsLowerHex(s[i]) || s[i] == '-'
    ensures Trim(s) == s && !Blank(s)
  {
    forall i | 0 <= i < |s| ensures !IsSpace(s[i]) {
      HexIsNotSpace(s[i]);
    }
    TrimKeepsSpaceFree(s);
  }

  lemma PrefixLength(s: Student)
    ensures |Prefix(s)| == |s.number| + |s.fullName| + |s.specialty| + |s.degree| + |s.faculty| + 4
  {
    FreeTextShape(s);
  }

  /** The verifier rebuilds the string the worker hashed exactly for complete records with no outer white space. */
  lemma SidesAgree(s: Student, vuz: Uuid, salt: string)
    requires IsDigest(salt) && !Blank(s.number)
    ensures BuildRawDiplomaString(InputFor(s, vuz, salt)) == Success(CanonicalString(s, vuz, salt))
       <==> AllTrimmed(s) && Complete(s)
  {
    HexIsTrimmed(vuz);
    HexIsTrimmed(salt);
    if Complete(s) {
      assert BuildRawDiplomaString(InputFor(s, vuz, salt)) == Success(CanonicalString(TrimAll(s), vuz, salt));
      CanonicalShape(s, vuz, salt);
      CanonicalShape(TrimAll(s), vuz, salt);
      PrefixLength(s);
      PrefixLength(TrimAll(s));
      TrimNeverGrows(s.fullName);
      TrimNeverGrows(s.number);
      TrimNeverGrows(s.specialty);
      TrimNeverGrows(s.degree);
      TrimNeverGrows(s.faculty);
    }
  }
}
