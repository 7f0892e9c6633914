/** Base64 (sections 4 and 5 of RFC 4648) and hexadecimal, as Go and Rust read and write them. */
module Encoding {
  import opened Wrappers
  import opened Text
  import opened Crypto

  type sextet = n: int | 0 <= n < 64

  function Letter(n: sextet, url: bool): char {
    if n < 26 then 'A' + n as char
    else if n < 52 then 'a' + (n - 26) as char
    else if n < 62 then '0' + (n - 52) as char
    else if n == 62 then (if url then '-' else '+')
    else (if url then '_' else '/')
  }

  function Value(c: char, url: bool): Option<sextet> {
    if 'A' <= c <= 'Z' then Some((c - 'A') as int)
    else if 'a' <= c <= 'z' then Some((c - 'a') as int + 26)
    else if '0' <= c <= '9' then Some((c - '0') as int + 52)
    else if c == (if url then '-' else '+') then Some(62)
    else if c == (if url then '_' else '/') then Some(63)
    else None
  }

  /** The alphabets of RFC 4648 in their order: 26 upper-case letters, 26 lower-case ones, ten digits, and two signs that
      the URL form replaces; no other character has a value. */
  lemma AlphabetExactly(n: sextet, url: bool, c: char)
    ensures Value(c, url) == Some(n) <==> c == Letter(n, url)
    ensures Letter(0, url) == 'A' && Letter(26, url) == 'a' && Letter(52, url) == '0'
    ensures n !in {25, 51, 61, 62, 63} ==> Letter(n + 1, url) as int == Letter(n, url) as int + 1
    ensures [Letter(62, url), Letter(63, url)] == if url then "-_" else "+/"
  {
  }

  /** A character that no trimming, line-break skipping, padding or token splitting touches. */
  predicate Plain(c: char) {
    c != '=' && c != '.' && c != '\n' && c != '\r' && !IsSpace(c)
  }

  predicate AllPlain(s: string) {
    forall i | 0 <= i < |s| :: Plain(s[i])
  }

  lemma LetterReadsBack(n: sextet, url: bool)
    ensures Value(Letter(n, url), url) == Some(n)
    ensures Plain(Letter(n, url))
  {
  }

  /** Three bytes as four letters. */
  function Quantum(x: byte, y: byte, z: byte, url: bool): string {
    [Letter(x / 4, url), Letter(x % 4 * 16 + y / 16, url), Letter(y % 16 * 4 + z / 64, url), Letter(z % 64, url)]
  }

  /** Encoding without padding. */
  function Encode(b: seq<byte>, url: bool): string {
    if b == [] then ""
    else if |b| == 1 then [Letter(b[0] / 4, url), Letter(b[0] % 4 * 16, url)]
    else if |b| == 2 then
      [Letter(b[0] / 4, url), Letter(b[0] % 4 * 16 + b[1] / 16, url), Letter(b[1] % 16 * 4, url)]
    else Quantum(b[0], b[1], b[2], url) + Encode(b[3..], url)
  }

  /** Decoding without padding; spare bits of the last letter are ignored, as Go does. */
  function Decode(s: string, url: bool): Option<seq<byte>> {
    if s == "" then Some([])
    else if |s| == 1 then None
    else
      var a, b := Value(s[0], url), Value(s[1], url);
      if a.None? || b.None? then None
      else
        var x := a.value * 4 + b.value / 16;
        if |s| == 2 then Some([x])
        else
          var c := Value(s[2], url);
          if c.None? then None
          else
            var y := b.value % 16 * 16 + c.value / 4;
            if |s| == 3 then Some([x, y])
            else
              var d := Value(s[3], url);
              var rest := Decode(s[4..], url);
              if d.None? || rest.None? then None
              else Some([x, y, c.value % 4 * 64 + d.value] + rest.value)
  }

  lemma OneByteReadsBack(x: byte, url: bool)
    ensures Decode([Letter(x / 4, url), Letter(x % 4 * 16, url)], url) == Some([x])
  {
    LetterReadsBack(x / 4, url);
    LetterReadsBack(x % 4 * 16, url);
  }

  lemma ThreeLettersReadBack(a: sextet, b: sextet, c: sextet, url: bool)
    ensures Decode([Letter(a, url), Letter(b, url), Letter(c, url)], url)
         == Some([a * 4 + b / 16, b % 16 * 16 + c / 4])
  {
    LetterReadsBack(a, url);
    LetterReadsBack(b, url);
    LetterReadsBack(c, url);
  }

  lemma FourLettersReadBack(a: sextet, b: sextet, c: sextet, d: sextet, url: bool, text: string, bytes: seq<byte>)
    requires Decode(text, url) == Some(bytes)
    ensures Decode([Letter(a, url), Letter(b, url), Letter(c, url), Letter(d, url)] + text, url)
         == Some([a * 4 + b / 16, b % 16 * 16 + c / 4, c % 4 * 64 + d] + bytes)
  {
    LetterReadsBack(a, url);
    LetterReadsBack(b, url);
    LetterReadsBack(c, url);
    LetterReadsBack(d, url);
    var s := [Letter(a, url), Letter(b, url), Letter(c, url), Letter(d, url)] + text;
    assert s[4..] == text;
  }

  lemma ThreeBytesFit(x: byte, y: byte, z: byte)
    ensures x / 4 * 4 + (x % 4 * 16 + y / 16) / 16 == x
    ensures (x % 4 * 16 + y / 16) % 16 * 16 + (y % 16 * 4 + z / 64) / 4 == y
    ensures (y % 16 * 4 + z / 64) % 4 * 64 + z % 64 == z
  {
  }

  lemma QuantumReadsBack(x: byte, y: byte, z: byte, url: bool, text: string, bytes: seq<byte>)
    requires Decode(text, url) == Some(bytes)
    ensures Decode(Quantum(x, y, z, url) + text, url) == Some([x, y, z] + bytes)
  {
    hide Decode;
    hide Letter;
    hide Value;
    ThreeBytesFit(x, y, z);
    FourLettersReadBack(x / 4, x % 4 * 16 + y / 16, y % 16 * 4 + z / 64, z % 64, url, text, bytes);
  }

  lemma QuantumPlain(x: byte, y: byte, z: byte, url: bool)
    ensures AllPlain(Quantum(x, y, z, url))
  {
    LetterReadsBack(x / 4, url);
    LetterReadsBack(x % 4 * 16 + y / 16, url);
    LetterReadsBack(y % 16 * 4 + z / 64, url);
    LetterReadsBack(z % 64, url);
  }

  lemma EmptyReadsBack(url: bool)
    ensures Decode("", url) == Some([])
  {
  }

  /** Unpadded base64 round trip, in both alphabets. */
  lemma {:induction false} EncodeReadsBack(b: seq<byte>, url: bool)
    ensures Decode(Encode(b, url), url) == Some(b)
  {
    hide Decode;
    hide Letter;
    hide Value;
    hide Quantum;
    if b == [] {
      EmptyReadsBack(url);
    } else if |b| == 1 {
      OneByteReadsBack(b[0], url);
      assert b == [b[0]];
    } else if |b| == 2 {
      ThreeBytesFit(b[0], b[1], 0);
      ThreeLettersReadBack(b[0] / 4, b[0] % 4 * 16 + b[1] / 16, b[1] % 16 * 4, url);
      assert b == [b[0], b[1]];
    } else if |b| > 2 {
      var rest := b[3..];
      EncodeReadsBack(rest, url);
      assert b == [b[0], b[1], b[2]] + rest;
      QuantumReadsBack(b[0], b[1], b[2], url, Encode(rest, url), rest);
    }
  }

  lemma {:induction false} EncodePlain(b: seq<byte>, url: bool)
    ensures AllPlain(Encode(b, url))
    ensures |Encode(b, url)| == (4 * |b| + 2) / 3
  {
    if |b| == 1 {
      LetterReadsBack(b[0] / 4, url);
      LetterReadsBack(b[0] % 4 * 16, url);
    } else if |b| == 2 {
      LetterReadsBack(b[0] / 4, url);
      LetterReadsBack(b[0] % 4 * 16 + b[1] / 16, url);
      LetterReadsBack(b[1] % 16 * 4, url);
    } else if |b| > 2 {
      QuantumPlain(b[0], b[1], b[2], url);
      EncodePlain(b[3..], url);
    }
  }

  lemma {:induction false} DecodeLength(s: string, url: bool)
    requires Decode(s, url).Some?
    ensures |Decode(s, url).value| == |s| * 3 / 4
  {
    if |s| > 3 {
      DecodeLength(s[4..], url);
    }
  }

  predicate Letters(s: string, url: bool) {
    forall i | 0 <= i < |s| :: Value(s[i], url).Some?
  }

  /** Byte `i` of the bits the letters spell. */
  function ByteAt(s: string, url: bool, i: nat): int
    requires Letters(s, url) && i < |s| * 3 / 4
  {
    var k := i / 3 * 4;
    if i % 3 == 0 then Value(s[k], url).value * 4 + Value(s[k + 1], url).value / 16
    else if i % 3 == 1 then Value(s[k + 1], url).value % 16 * 16 + Value(s[k + 2], url).value / 4
    else Value(s[k + 2], url).value % 4 * 64 + Value(s[k + 3], url).value
  }

  /** Decodable are exactly the texts of letters that do not leave one over; spare bits are dropped. */
  lemma {:induction false} DecodeExactly(s: string, url: bool)
    ensures Decode(s, url).Some? <==> |s| % 4 != 1 && Letters(s, url)
    ensures Decode(s, url).Some? ==>
              && |Decode(s, url).value| == |s| * 3 / 4
              && forall i | 0 <= i < |s| * 3 / 4 :: Decode(s, url).value[i] == ByteAt(s, url, i)
  {
    hide Value;
    if |s| > 3 {
      DecodeExactly(s[4..], url);
      LettersSplit(s, url);
      if Decode(s, url).Some? {
        forall i | 3 <= i < |s| * 3 / 4 ensures Decode(s, url).value[i] == ByteAt(s, url, i) {
          LaterByte(s, url, i);
        }
      }
    }
  }

  lemma LettersSplit(s: string, url: bool)
    requires |s| > 3
    ensures Letters(s, url) <==>
              && Value(s[0], url).Some? && Value(s[1], url).Some? && Value(s[2], url).Some? && Value(s[3], url).Some?
              && Letters(s[4..], url)
  {
    hide Value;
    if Letters(s[4..], url) {
      forall i | 4 <= i < |s| ensures s[i] == s[4..][i - 4] {
      }
    }
  }

  lemma LaterByte(s: string, url: bool, i: nat)
    requires |s| > 3 && Letters(s, url) && Letters(s[4..], url) && 3 <= i < |s| * 3 / 4
    ensures i - 3 < |s[4..]| * 3 / 4 && ByteAt(s, url, i) == ByteAt(s[4..], url, i - 3)
  {
    hide Value;
    assert (i - 3) / 3 * 4 == i / 3 * 4 - 4 && (i - 3) % 3 == i % 3;
  }

  // ---- padded standard form ----

  function Padding(n: nat): string {
    if n % 3 == 1 then "==" else if n % 3 == 2 then "=" else ""
  }

  function EncodeStd(b: seq<byte>): string {
    Encode(b, false) + Padding(|b|)
  }

  function WithoutNewlines(s: string): string {
    if s == "" then ""
    else if s[0] == '\n' || s[0] == '\r' then WithoutNewlines(s[1..])
    else [s[0]] + WithoutNewlines(s[1..])
  }

  lemma {:induction false} NothingToSkip(s: string)
    requires forall i | 0 <= i < |s| :: s[i] != '\n' && s[i] != '\r'
    ensures WithoutNewlines(s) == s
  {
    if s != "" {
      NothingToSkip(s[1..]);
    }
  }

  /** Padded decoding of a text without line breaks. */
  function DecodePadded(s: string): Option<seq<byte>> {
    if |s| % 4 != 0 then None
    else if |s| >= 2 && s[|s| - 2..] == "==" then Decode(s[..|s| - 2], false)
    else if |s| >= 1 && s[|s| - 1] == '=' then Decode(s[..|s| - 1], false)
    else Decode(s, false)
  }

  /** Go's `base64.StdEncoding.DecodeString`. */
  function GoDecodeStd(s: string): Option<seq<byte>> {
    DecodePadded(WithoutNewlines(s))
  }

  /** Go's `base64.RawStdEncoding.DecodeString`. */
  function GoDecodeRawStd(s: string): Option<seq<byte>> {
    Decode(WithoutNewlines(s), false)
  }

  /** Rust's `STANDARD` engine takes canonical encodings only: no line breaks, no spare bits. */
  function RustDecode(s: string): Option<seq<byte>> {
    var d := DecodePadded(s);
    if d.Some? && EncodeStd(d.value) == s then d else None
  }

  lemma EncodeStdPlain(b: seq<byte>)
    ensures forall i | 0 <= i < |EncodeStd(b)| :: Plain(EncodeStd(b)[i]) || EncodeStd(b)[i] == '='
    ensures |EncodeStd(b)| == (|b| + 2) / 3 * 4
  {
    EncodePlain(b, false);
    PaddedLength(|b|);
  }

  lemma PaddingComesOff(raw: string, pad: string)
    requires pad == "" || pad == "=" || pad == "=="
    requires AllPlain(raw) && (|raw| + |pad|) % 4 == 0
    ensures DecodePadded(raw + pad) == Decode(raw, false)
  {
    var s := raw + pad;
    assert s[..|raw|] == raw && s[|raw|..] == pad;
    if pad == "=" {
      assert s[|s| - 2..][0] == raw[|raw| - 1];
    } else if pad == "" {
      assert s == raw;
      assert raw != "" ==> s[|s| - 2..][1] == raw[|s| - 1];
    }
  }

  lemma PaddedLength(n: nat)
    ensures (4 * n + 2) / 3 + |Padding(n)| == (n + 2) / 3 * 4
    ensures ((4 * n + 2) / 3 + |Padding(n)|) % 4 == 0
  {
  }

  lemma PaddedTextReads(raw: string, n: nat)
    requires AllPlain(raw) && (|raw| + |Padding(n)|) % 4 == 0
    ensures DecodePadded(raw + Padding(n)) == Decode(raw, false)
  {
    PaddingComesOff(raw, Padding(n));
  }

  lemma PaddedReadsBack(b: seq<byte>)
    ensures DecodePadded(EncodeStd(b)) == Decode(Encode(b, false), false)
  {
    hide Encode;
    hide Decode;
    hide DecodePadded;
    hide Padding;
    hide AllPlain;
    EncodePlain(b, false);
    PaddedLength(|b|);
    PaddedTextReads(Encode(b, false), |b|);
  }

  /** Padded base64 round trip, for both languages; the text survives trimming. */
  lemma {:induction false} EncodeStdReadsBack(b: seq<byte>)
    ensures GoDecodeStd(EncodeStd(b)) == Some(b)
    ensures RustDecode(EncodeStd(b)) == Some(b)
    ensures Trim(EncodeStd(b)) == EncodeStd(b)
  {
    hide Encode;
    hide Decode;
    hide DecodePadded;
    hide EncodeStd;
    hide Trim;
    hide WithoutNewlines;
    PaddedReadsBack(b);
    EncodeReadsBack(b, false);
    EncodeStdPlain(b);
    TrimKeepsSpaceFree(EncodeStd(b));
    NothingToSkip(EncodeStd(b));
  }

  function Signs(n: nat): string {
    if n == 0 then "" else if n == 1 then "=" else "=="
  }

  /** The text ends in `n` signs '=', and what is before them decodes. */
  predicate PaddedBy(s: string, n: nat, b: seq<byte>) {
    n <= 2 && n <= |s| && s[|s| - n..] == Signs(n) && Decode(s[..|s| - n], false) == Some(b)
  }

  /** Padded decoding takes exactly the decodable texts that one or two '=' bring to a multiple of four. */
  lemma {:induction false} PaddedExactly(s: string, b: seq<byte>)
    ensures DecodePadded(s) == Some(b) <==> |s| % 4 == 0 && exists n :: 0 <= n <= 2 && PaddedBy(s, n, b)
  {
    hide DecodePadded;
    hide PaddedBy;
    if DecodePadded(s) == Some(b) {
      PaddingFound(s, b);
    }
    if |s| % 4 == 0 {
      if n :| 0 <= n <= 2 && PaddedBy(s, n, b) {
        PaddingTaken(s, n, b);
      }
    }
  }

  /** How many signs padded decoding takes off. */
  function SignsOf(s: string): nat {
    if |s| >= 2 && s[|s| - 2..] == "==" then 2 else if |s| >= 1 && s[|s| - 1] == '=' then 1 else 0
  }

  lemma SignsComeOff(s: string)
    ensures SignsOf(s) <= 2 && SignsOf(s) <= |s|
    ensures DecodePadded(s) == if |s| % 4 != 0 then None else Decode(s[..|s| - SignsOf(s)], false)
  {
    hide Decode;
    assert s[..|s| - 0] == s;
  }

  lemma SignsStand(s: string)
    ensures SignsOf(s) <= |s| && s[|s| - SignsOf(s)..] == Signs(SignsOf(s))
  {
    if |s| >= 1 {
      assert s[|s| - 1..] == [s[|s| - 1]];
    }
  }

  lemma PaddingFound(s: string, b: seq<byte>)
    requires DecodePadded(s) == Some(b)
    ensures |s| % 4 == 0 && exists n :: 0 <= n <= 2 && PaddedBy(s, n, b)
  {
    hide Decode;
    hide DecodePadded;
    hide PaddedBy;
    hide Signs;
    hide SignsOf;
    SignsComeOff(s);
    SignsStand(s);
    IsPadded(s, SignsOf(s), b);
  }

  lemma IsPadded(s: string, n: nat, b: seq<byte>)
    requires n <= 2 && n <= |s| && s[|s| - n..] == Signs(n) && Decode(s[..|s| - n], false) == Some(b)
    ensures PaddedBy(s, n, b)
  {
    hide Decode;
  }

  lemma PaddingTaken(s: string, n: nat, b: seq<byte>)
    requires |s| % 4 == 0 && PaddedBy(s, n, b)
    ensures DecodePadded(s) == Some(b)
  {
    hide Decode;
    hide DecodePadded;
    var raw := s[..|s| - n];
    DecodeExactly(raw, false);
    LettersArePlain(raw, false);
    PaddingComesOff(raw, Signs(n));
    assert raw + Signs(n) == s;
  }

  lemma LettersArePlain(s: string, url: bool)
    requires Letters(s, url)
    ensures AllPlain(s)
  {
    forall i | 0 <= i < |s| ensures Plain(s[i]) {
      assert Value(s[i], url).Some?;
    }
  }

  /** Go skips line breaks wherever they stand. */
  lemma {:induction false} LineBreaksSkipped(a: string, c: char, b: string)
    requires c == '\n' || c == '\r'
    ensures WithoutNewlines(a + [c] + b) == WithoutNewlines(a + b)
    ensures GoDecodeStd(a + [c] + b) == GoDecodeStd(a + b) && GoDecodeRawStd(a + [c] + b) == GoDecodeRawStd(a + b)
  {
    if a == "" {
      assert a + [c] + b == [c] + b && ([c] + b)[1..] == b && a + b == b;
    } else {
      assert (a + [c] + b)[1..] == a[1..] + [c] + b && (a + b)[1..] == a[1..] + b;
      LineBreaksSkipped(a[1..], c, b);
    }
  }

  // ---- hexadecimal ----

  type nibble = n: int | 0 <= n < 16

  function HexValue(c: char): Option<nibble> {
    if '0' <= c <= '9' then Some((c - '0') as int)
    else if 'a' <= c <= 'f' then Some((c - 'a') as int + 10)
    else if 'A' <= c <= 'F' then Some((c - 'A') as int + 10)
    else None
  }

  /** Go's `hex.DecodeString`. */
  function HexDecode(s: string): Option<seq<byte>> {
    if s == "" then Some([])
    else if |s| == 1 then None
    else
      var a, b := HexValue(s[0]), HexValue(s[1]);
      var rest := HexDecode(s[2..]);
      if a.None? || b.None? || rest.None? then None
      else Some([a.value * 16 + b.value] + rest.value)
  }

  function HexPair(x: byte): string {
    ["0123456789abcdef"[x / 16], "0123456789abcdef"[x % 16]]
  }

  function HexEncode(b: seq<byte>): string {
    if b == [] then "" else HexPair(b[0]) + HexEncode(b[1..])
  }

  lemma {:induction false} HexShape(s: string)
    requires HexDecode(s).Some?
    ensures |s| % 2 == 0 && |HexDecode(s).value| == |s| / 2
    ensures forall i | 0 <= i < |s| :: HexValue(s[i]).Some?
  {
    if s != "" {
      HexShape(s[2..]);
      assert forall i | 2 <= i < |s| :: s[i] == s[2..][i - 2];
    }
  }

  lemma HexPairReadsBack(x: byte, text: string, bytes: seq<byte>)
    requires HexDecode(text) == Some(bytes)
    ensures HexDecode(HexPair(x) + text) == Some([x] + bytes)
  {
    hide HexValue;
    HexDigit(x / 16);
    HexDigit(x % 16);
    assert (HexPair(x) + text)[2..] == text;
  }

  lemma {:induction false} HexReadsBack(b: seq<byte>)
    ensures HexDecode(HexEncode(b)) == Some(b)
  {
    if b != [] {
      HexReadsBack(b[1..]);
      HexPairReadsBack(b[0], HexEncode(b[1..]), b[1..]);
      assert b == [b[0]] + b[1..];
    }
  }

  lemma {:induction false} HexDigitsOnly(b: seq<byte>)
    ensures |HexEncode(b)| == 2 * |b|
    ensures forall i | 0 <= i < |HexEncode(b)| :: IsLowerHex(HexEncode(b)[i])
  {
    if b != [] {
      HexDigitsOnly(b[1..]);
      HexDigit(b[0] / 16);
      HexDigit(b[0] % 16);
    }
  }

  lemma HexDigit(n: nat)
    requires n < 16
    ensures HexValue("0123456789abcdef"[n]) == Some(n) && IsLowerHex("0123456789abcdef"[n])
  {
  }

  /** The digits, of either case, in their order, and no other character. */
  lemma DigitsExactly(n: nibble, c: char)
    ensures HexValue(c) == Some(n) <==> c == "0123456789abcdef"[n] || c == "0123456789ABCDEF"[n]
  {
  }

  /** Hexadecimal texts are exactly those of an even number of digits, of either case, two for each byte. */
  lemma {:induction false} HexExactly(s: string)
    ensures HexDecode(s).Some? <==> |s| % 2 == 0 && forall i | 0 <= i < |s| :: HexValue(s[i]).Some?
    ensures HexDecode(s).Some? ==>
              && |HexDecode(s).value| == |s| / 2
              && forall i | 0 <= i < |s| / 2 ::
                   && HexValue(s[2 * i]).Some? && HexValue(s[2 * i + 1]).Some?
                   && HexDecode(s).value[i] == HexValue(s[2 * i]).value * 16 + HexValue(s[2 * i + 1]).value
  {
    hide HexValue;
    if |s| > 1 {
      HexExactly(s[2..]);
      assert forall i | 2 <= i < |s| :: s[i] == s[2..][i - 2];
      if HexDecode(s).Some? {
        forall i | 1 <= i < |s| / 2
          ensures HexValue(s[2 * i]).Some? && HexValue(s[2 * i + 1]).Some?
          ensures HexDecode(s).value[i] == HexValue(s[2 * i]).value * 16 + HexValue(s[2 * i + 1]).value
        {
          assert s[2 * i] == s[2..][2 * (i - 1)] && s[2 * i + 1] == s[2..][2 * (i - 1) + 1];
          assert HexDecode(s).value[i] == HexDecode(s[2..]).value[i - 1];
        }
      }
    }
  }
}
