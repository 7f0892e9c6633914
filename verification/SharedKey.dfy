/** The payload key derived from one configured secret by the worker, the gateway and the public verifier. */
module SharedKey {
  import opened Wrappers
  import opened Text
  import opened Crypto
  import opened Encoding

  /** SHA-256 over bytes and the UTF-8 bytes of a string; only their sizes matter here. */
  datatype Hashing = Hashing(digest: seq<byte> -> seq<byte>, utf8: string -> seq<byte>)

  /** Worker: the secret must be canonical base64 of 32 bytes. */
  function WorkerKey(secret: string): Option<seq<byte>> {
    var d := RustDecode(secret);
    if d.Some? && |d.value| == KEY_SIZE then d else None
  }

  predicate Exact(d: Option<seq<byte>>) {
    d.Some? && |d.value| == KEY_SIZE
  }

  function GatewaySecretBytes(h: Hashing, secret: string): seq<byte> {
    if HexDecode(secret).Some? then HexDecode(secret).value
    else if GoDecodeStd(secret).Some? then GoDecodeStd(secret).value
    else h.utf8(secret)
  }

  /** Gateway: `deriveAES256Key`. */
  function GatewayKey(h: Hashing, secret: string): Option<seq<byte>> {
    var t := Trim(secret);
    if t == "" then None
    else if Exact(HexDecode(t)) then HexDecode(t)
    else if Exact(GoDecodeStd(t)) then GoDecodeStd(t)
    else Some(h.digest(GatewaySecretBytes(h, t)))
  }

  function VerifierBase64(secret: string): Option<seq<byte>> {
    if GoDecodeStd(secret).Some? then GoDecodeStd(secret) else GoDecodeRawStd(secret)
  }

  function VerifierSecretBytes(h: Hashing, secret: string): seq<byte> {
    if HexDecode(secret).Some? then HexDecode(secret).value
    else if GoDecodeStd(secret).Some? then GoDecodeStd(secret).value
    else if GoDecodeRawStd(secret).Some? then GoDecodeRawStd(secret).value
    else h.utf8(secret)
  }

  /** Public verifier: `deriveJWTEncKey`. */
  function VerifierKey(h: Hashing, secret: string): Option<seq<byte>> {
    var t := Trim(secret);
    if t == "" then None
    else if Exact(HexDecode(t)) then HexDecode(t)
    else if Exact(VerifierBase64(t)) then VerifierBase64(t)
    else Some(h.digest(VerifierSecretBytes(h, t)))
  }

  /** One secret for all three: base64 of any 32-byte key gives every service that key. */
  lemma Base64SecretIsShared(h: Hashing, key: seq<byte>)
    requires |key| == KEY_SIZE
    ensures WorkerKey(EncodeStd(key)) == Some(key)
    ensures GatewayKey(h, EncodeStd(key)) == Some(key)
    ensures VerifierKey(h, EncodeStd(key)) == Some(key)
  {
    var s := EncodeStd(key);
    EncodeStdReadsBack(key);
    EncodePlain(key, false);
    assert s[|Encode(key, false)|] == Padding(KEY_SIZE)[0] == '=';
    NotHex(s, |Encode(key, false)|);
  }

  /** And only that secret: all three services derive the same key from a secret exactly if it is canonical base64
      of 32 bytes, and the key is those bytes. */
  lemma {:induction false} SharedExactly(h: Hashing, secret: string, key: seq<byte>)
    ensures WorkerKey(secret) == GatewayKey(h, secret) == VerifierKey(h, secret) == Some(key) <==>
              |key| == KEY_SIZE && secret == EncodeStd(key)
  {
    hide GatewayKey;
    hide VerifierKey;
    hide EncodeStd;
    hide DecodePadded;
    if |key| == KEY_SIZE && secret == EncodeStd(key) {
      Base64SecretIsShared(h, key);
    }
  }

  lemma NotHex(s: string, i: nat)
    requires i < |s| && HexValue(s[i]).None?
    ensures HexDecode(s).None?
  {
    if HexDecode(s).Some? {
      HexShape(s);
    }
  }

  /** A hexadecimal secret works for the two Go services but the worker refuses it: its 64 characters are
      base64 of 48 bytes. */
  lemma {:induction false} HexSecretStopsTheWorker(h: Hashing, key: seq<byte>)
    requires |key| == KEY_SIZE
    ensures GatewayKey(h, HexEncode(key)) == VerifierKey(h, HexEncode(key)) == Some(key)
    ensures WorkerKey(HexEncode(key)) == None
  {
    HexReadsBack(key);
    HexDigitsOnly(key);
    HexIsPlain(HexEncode(key));
    TrimKeepsSpaceFree(HexEncode(key));
    HexIsLongBase64(HexEncode(key));
  }

  lemma HexIsPlain(s: string)
    requires forall i | 0 <= i < |s| :: IsLowerHex(s[i])
    ensures AllPlain(s)
  {
    forall i | 0 <= i < |s| ensures Plain(s[i]) {
      var n := s[i] as int;
      assert 48 <= n <= 57 || 97 <= n <= 102;
    }
  }

  lemma HexIsLongBase64(s: string)
    requires AllPlain(s) && |s| == 2 * KEY_SIZE
    ensures WorkerKey(s) == None
  {
    assert s + "" == s;
    PaddingComesOff(s, "");
    if Decode(s, false).Some? {
      DecodeLength(s, false);
    }
  }

  /** The bytes a Go service reads out of a secret: hexadecimal first, then base64, then the text itself. */
  function ReadFirst(h: Hashing, t: string, base64: Option<seq<byte>>): seq<byte> {
    if HexDecode(t).Some? then HexDecode(t).value else if base64.Some? then base64.value else h.utf8(t)
  }

  /** Outer white space aside, a blank secret gives no key; 32 bytes are the key themselves, be they written in
      hexadecimal or base64; anything else is hashed, text that is neither as it stands. */
  lemma {:induction false} GoKeysExactly(h: Hashing, secret: string)
    ensures GatewayKey(h, secret).None? <==> Blank(secret)
    ensures VerifierKey(h, secret).None? <==> Blank(secret)
    ensures !Blank(secret) ==>
              var t := Trim(secret);
              var padded := GoDecodeStd(t);
              var either := if padded.Some? then padded else GoDecodeRawStd(t);
              && (HexDecode(t).Some? && |HexDecode(t).value| == KEY_SIZE ==>
                    GatewayKey(h, secret) == VerifierKey(h, secret) == HexDecode(t))
              && (!Exact(HexDecode(t)) && padded.Some? && |padded.value| == KEY_SIZE ==> GatewayKey(h, secret) == padded)
              && (!Exact(HexDecode(t)) && either.Some? && |either.value| == KEY_SIZE ==> VerifierKey(h, secret) == either)
              && (!Exact(HexDecode(t)) && !Exact(padded) ==> GatewayKey(h, secret) == Some(h.digest(ReadFirst(h, t, padded))))
              && (!Exact(HexDecode(t)) && !Exact(either) ==> VerifierKey(h, secret) == Some(h.digest(ReadFirst(h, t, either))))
  {
    hide HexDecode;
    hide GoDecodeStd;
    hide GoDecodeRawStd;
    hide Trim;
  }

  /** The secrets on which the two Go services part: only unpadded base64 reads them. */
  predicate OnlyUnpadded(t: string) {
    HexDecode(t).None? && GoDecodeStd(t).None? && GoDecodeRawStd(t).Some?
  }

  /** 32 bytes of unpadded base64 take 43 letters, an odd number, so such a text is never hexadecimal. */
  lemma UnpaddedKeyIsNotHex(t: string)
    requires Exact(GoDecodeRawStd(t))
    ensures HexDecode(t).None?
  {
    if HexDecode(t).Some? {
      HexShape(t);
      NothingToSkip(t);
    }
    DecodeLength(WithoutNewlines(t), false);
  }

  /** The two Go services derive the same key exactly from the secrets that are not `OnlyUnpadded`
      (assuming SHA-256 does not happen to send the raw text to what the verifier derives). */
  lemma GoServicesAgree(h: Hashing, secret: string)
    requires OnlyUnpadded(Trim(secret)) ==>
               var raw := GoDecodeRawStd(Trim(secret)).value;
               h.digest(h.utf8(Trim(secret))) !in {raw, h.digest(raw)}
    ensures GatewayKey(h, secret) == VerifierKey(h, secret) <==> !OnlyUnpadded(Trim(secret))
  {
    var t := Trim(secret);
    if Exact(GoDecodeRawStd(t)) {
      UnpaddedKeyIsNotHex(t);
    }
    if t == "" {
      assert HexDecode(t) == Some([]);
    }
  }
}
