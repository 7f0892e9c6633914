/** Strings as both services see them: white-space trimming, decimal numbers and joining with '|'.
    Rust's `str::trim` and Go's `strings.TrimSpace` strip the same Unicode White_Space characters. */
module Text {

  predicate IsSpace(c: char) {
    var n := c as int;
    9 <= n <= 13 || n == 0x20 || n == 0x85 || n == 0xA0 || n == 0x1680 || 0x2000 <= n <= 0x200A
    || n == 0x2028 || n == 0x2029 || n == 0x202F || n == 0x205F || n == 0x3000
  }

  /** The characters with the Unicode property White_Space. */
  const WHITE_SPACE: seq<int> := [9, 10, 11, 12, 13, 32, 133, 160, 5760, 8192, 8193, 8194, 8195, 8196, 8197, 8198, 8199, 8200, 8201,
                                  8202, 8232, 8233, 8239, 8287, 12288]

  lemma SpacesListed(c: char)
    ensures IsSpace(c) <==> c as int in WHITE_SPACE
  {
    var n := c as int;
    if 9 <= n <= 13 {
      assert WHITE_SPACE[n - 9] == n;
    } else if 0x2000 <= n <= 0x200A {
      assert WHITE_SPACE[n - 0x2000 + 9] == n;
    } else if IsSpace(c) {
      assert n in [WHITE_SPACE[5], WHITE_SPACE[6], WHITE_SPACE[7], WHITE_SPACE[8], WHITE_SPACE[20], WHITE_SPACE[21], WHITE_SPACE[22],
                   WHITE_SPACE[23], WHITE_SPACE[24]];
    }
  }

  predicate NoSpaces(s: string) {
    forall i | 0 <= i < |s| :: !IsSpace(s[i])
  }

  function TrimLeft(s: string): string {
    if s != "" && IsSpace(s[0]) then TrimLeft(s[1..]) else s
  }

  function TrimRight(s: string): string {
    if s != "" && IsSpace(s[|s| - 1]) then TrimRight(s[..|s| - 1]) else s
  }

  function Trim(s: string): string {
    TrimRight(TrimLeft(s))
  }

  predicate Blank(s: string) {
    Trim(s) == ""
  }

  lemma {:induction false} TrimLeftShape(s: string)
    ensures |TrimLeft(s)| <= |s| && s[|s| - |TrimLeft(s)|..] == TrimLeft(s)
    ensures forall i | 0 <= i < |s| - |TrimLeft(s)| :: IsSpace(s[i])
    ensures TrimLeft(s) != "" ==> !IsSpace(TrimLeft(s)[0])
  {
    if s != "" && IsSpace(s[0]) {
      TrimLeftShape(s[1..]);
      assert forall i | 1 <= i < |s| - |TrimLeft(s)| :: s[i] == s[1..][i - 1];
    }
  }

  lemma {:induction false} TrimRightShape(s: string)
    ensures |TrimRight(s)| <= |s| && s[..|TrimRight(s)|] == TrimRight(s)
    ensures forall i | |TrimRight(s)| <= i < |s| :: IsSpace(s[i])
    ensures TrimRight(s) != "" ==> !IsSpace(TrimRight(s)[|TrimRight(s)| - 1])
  {
    if s != "" && IsSpace(s[|s| - 1]) {
      TrimRightShape(s[..|s| - 1]);
    }
  }

  /** Trimming drops a run of spaces at each end and leaves a string that starts and ends with a non-space. */
  lemma TrimShape(s: string) returns (left: nat)
    ensures left + |Trim(s)| <= |s|
    ensures s[left..left + |Trim(s)|] == Trim(s)
    ensures forall i | 0 <= i < left || left + |Trim(s)| <= i < |s| :: IsSpace(s[i])
    ensures Trim(s) != "" ==> !IsSpace(Trim(s)[0]) && !IsSpace(Trim(s)[|Trim(s)| - 1])
  {
    var l := TrimLeft(s);
    TrimLeftShape(s);
    TrimRightShape(l);
    left := |s| - |l|;
    var t := Trim(s);
    assert forall i | |t| <= i < |l| :: l[i] == s[left + i];
    if t != "" {
      assert t[0] == l[0];
    }
  }

  lemma TrimNeverGrows(s: string)
    ensures |Trim(s)| <= |s|
    ensures |Trim(s)| == |s| <==> Trim(s) == s
  {
    var left := TrimShape(s);
    if |Trim(s)| == |s| {
      assert s[left..left + |s|] == s;
    }
  }

  lemma TrimIdempotent(s: string)
    ensures Trim(Trim(s)) == Trim(s)
  {
    var left := TrimShape(s);
    var t := Trim(s);
    if t != "" {
      assert TrimLeft(t) == t && TrimRight(t) == t;
    }
  }

  lemma TrimEmpty()
    ensures Trim("") == "" && Blank("")
  {
  }

  lemma TrimKeepsSpaceFree(s: string)
    requires NoSpaces(s)
    ensures Trim(s) == s
  {
    assert TrimLeft(s) == s;
    assert TrimRight(s) == s;
  }

  function Itoa(n: nat): string {
    if n < 10 then ["0123456789"[n]] else Itoa(n / 10) + ["0123456789"[n % 10]]
  }

  predicate IsDigit(c: char) {
    '0' <= c <= '9'
  }

  lemma {:induction false} ItoaDigits(n: nat)
    ensures |Itoa(n)| > 0 && forall i | 0 <= i < |Itoa(n)| :: IsDigit(Itoa(n)[i])
  {
    if n >= 10 {
      ItoaDigits(n / 10);
    }
  }

  /** The number that decimal digits spell. */
  function Spelled(s: string): nat
    requires forall i | 0 <= i < |s| :: IsDigit(s[i])
  {
    if s == "" then 0
    else
      assert IsDigit(s[|s| - 1]);
      Spelled(s[..|s| - 1]) * 10 + (s[|s| - 1] as int - '0' as int)
  }

  /** A number is written with the digits that spell it, and without leading zeros. */
  lemma {:induction false} ItoaReadsBack(n: nat)
    ensures (forall i | 0 <= i < |Itoa(n)| :: IsDigit(Itoa(n)[i])) && Spelled(Itoa(n)) == n
    ensures n > 0 ==> Itoa(n)[0] != '0'
    ensures n == 0 ==> Itoa(n) == "0"
  {
    ItoaDigits(n);
    if n >= 10 {
      ItoaReadsBack(n / 10);
      assert Itoa(n)[..|Itoa(n)| - 1] == Itoa(n / 10);
    } else {
      assert Itoa(n)[..0] == "";
    }
  }

  /** The last digit and the digits before it. */
  lemma ItoaSplit(n: nat)
    ensures |Itoa(n)| > 0 && Itoa(n)[|Itoa(n)| - 1] == "0123456789"[n % 10]
    ensures Itoa(n)[..|Itoa(n)| - 1] == if n < 10 then "" else Itoa(n / 10)
  {
  }

  lemma DigitInjective(a: nat, b: nat)
    requires a < 10 && b < 10 && "0123456789"[a] == "0123456789"[b]
    ensures a == b
  {
  }

  lemma {:induction false} ItoaInjective(m: nat, n: nat)
    requires Itoa(m) == Itoa(n)
    ensures m == n
  {
    hide Itoa;
    ItoaSplit(m);
    ItoaSplit(n);
    DigitInjective(m % 10, n % 10);
    if m >= 10 && n >= 10 {
      ItoaInjective(m / 10, n / 10);
    } else if m >= 10 {
      ItoaSplit(m / 10);
    } else if n >= 10 {
      ItoaSplit(n / 10);
    }
  }

  /** `strings.Join(parts, "|")`, which is also what the Rust format string spells out. */
  function Join(parts: seq<string>): string {
    if parts == [] then ""
    else if |parts| == 1 then parts[0]
    else parts[0] + "|" + Join(parts[1..])
  }

  /** Number of '|' characters. */
  function Pipes(s: string): nat {
    if s == "" then 0 else (if s[0] == '|' then 1 else 0) + Pipes(s[1..])
  }

  lemma {:induction false} PipesConcat(a: string, b: string)
    ensures Pipes(a + b) == Pipes(a) + Pipes(b)
  {
    if a == "" {
      assert a + b == b;
    } else {
      assert (a + b)[1..] == a[1..] + b;
      PipesConcat(a[1..], b);
    }
  }

  lemma {:induction false} NoPipesWithout(s: string)
    requires forall i | 0 <= i < |s| :: s[i] != '|'
    ensures Pipes(s) == 0
  {
    if s != "" {
      NoPipesWithout(s[1..]);
    }
  }

  lemma {:induction false} FirstPipe(s: string) returns (a: string, b: string)
    requires Pipes(s) > 0
    ensures s == a + "|" + b
  {
    if s[0] == '|' {
      a, b := "", s[1..];
    } else {
      a, b := FirstPipe(s[1..]);
      a := [s[0]] + a;
    }
  }

  /** A string cut at a '|' is cut the same way by anyone who agrees on the number of '|' before the cut. */
  lemma CutByCount(a: string, x: string, b: string, y: string)
    requires a + "|" + x == b + "|" + y
    requires Pipes(a) == Pipes(b)
    ensures a == b && x == y
  {
    if |a| < |b| {
      CutTooEarly(a, x, b, y);
      PipeBeyondPrefix(a, b);
    } else if |b| < |a| {
      CutTooEarly(b, y, a, x);
      PipeBeyondPrefix(b, a);
    } else {
      var s := a + "|" + x;
      assert s[..|a|] == a && s[..|a|] == b;
      assert s[|a| + 1..] == x && s[|a| + 1..] == y;
    }
  }

  lemma CutTooEarly(a: string, x: string, b: string, y: string)
    requires a + "|" + x == b + "|" + y
    requires |a| < |b|
    ensures b[..|a|] == a && b[|a|] == '|'
    ensures |b| - |a| - 1 < |x| && x[|b| - |a| - 1] == '|'
  {
    var s, t := a + "|" + x, b + "|" + y;
    assert s[|b|] == t[|b|] && s[|a|] == t[|a|];
    assert b == t[..|b|];
  }

  lemma PipeBeyondPrefix(a: string, b: string)
    requires |a| < |b| && b[..|a|] == a && b[|a|] == '|'
    ensures Pipes(b) > Pipes(a)
  {
    var rest := b[|a|..];
    assert b == a + rest;
    PipesConcat(a, rest);
  }

  /** The last '|' is found from the right when what follows it has none. */
  lemma CutAtLast(a: string, x: string, b: string, y: string)
    requires a + "|" + x == b + "|" + y
    requires forall i | 0 <= i < |x| :: x[i] != '|'
    requires forall i | 0 <= i < |y| :: y[i] != '|'
    ensures a == b && x == y
  {
    if |a| < |b| {
      CutTooEarly(a, x, b, y);
    } else if |b| < |a| {
      CutTooEarly(b, y, a, x);
    }
    var s := a + "|" + x;
    assert |a| == |b|;
    assert s[..|a|] == a && s[..|a|] == b;
    assert s[|a| + 1..] == x && s[|a| + 1..] == y;
  }

  lemma CutSuffix(a: string, x: string, b: string, y: string)
    requires a + x == b + y && |x| == |y|
    ensures a == b && x == y
  {
    var s := a + x;
    assert s[..|a|] == a && s[..|a|] == b;
    assert s[|a|..] == x && s[|a|..] == y;
  }
}
