/**
 * The Magic Envelope: an entity serialized, base64url-encoded and signed
 * inside an `me:env` element, and the ordered checks that open one again.
 */
module MagicEnvelope {
  import opened Wrappers
  import opened Entities
  import opened Errors
  import opened Primitives

  /** The only supported values of the three protocol tags. */
  const Encoding: string := "base64url"
  const Algorithm: string := "RSA-SHA256"
  const DataType: string := "application/xml"

  /** `me:data`: the encoded payload and its `type` attribute. */
  datatype DataElement = DataElement(content: Bytes, dataType: Option<string>)

  /** `me:sig`: the encoded signature and its `key_id` attribute. */
  datatype SigElement = SigElement(content: Bytes, keyId: Option<Bytes>)

  /** An envelope element: its name and each child element, absent or present. */
  datatype EnvElement = EnvElement(
    name: string,
    data: Option<DataElement>,
    encoding: Option<string>,
    alg: Option<string>,
    sig: Option<SigElement>)

  /** The names of the child elements that are present, in document order. */
  function ChildNames(env: EnvElement): seq<string> {
    (if env.data.Some? then ["data"] else [])
    + (if env.encoding.Some? then ["encoding"] else [])
    + (if env.alg.Some? then ["alg"] else [])
    + (if env.sig.Some? then ["sig"] else [])
  }

  /** The AES key and IV that `encrypt!` returns and `unenvelop` accepts. */
  datatype CipherParams = CipherParams(key: Bytes, iv: Bytes)

  /** What `unenvelop` yields: the payload entity and the resolved sender. */
  datatype Opened = Opened(payload: Entity, sender: DiasporaId)

  // ---------------------------------------------------------------------
  // The signature subject

  /** `Array#join`: the parts with `sep` between neighbours. */
  function Join(parts: seq<Bytes>, sep: char): Bytes {
    if |parts| == 0 then []
    else if |parts| == 1 then parts[0]
    else parts[0] + [sep] + Join(parts[1..], sep)
  }

  /** The index of the first `c` in `s`, or `|s|` when there is none. */
  function FirstIndexOf(s: Bytes, c: char): (i: nat)
    ensures i <= |s|
    ensures forall k :: 0 <= k < i ==> s[k] != c
    ensures i < |s| ==> s[i] == c
  {
    if s == [] || s[0] == c then 0 else 1 + FirstIndexOf(s[1..], c)
  }

  lemma {:induction false} FirstIndexAfterPrefix(x: Bytes, rest: Bytes, c: char)
    requires c !in x
    ensures FirstIndexOf(x + [c] + rest, c) == |x|
  {
    if x != [] {
      assert (x + [c] + rest)[1..] == x[1..] + [c] + rest;
      FirstIndexAfterPrefix(x[1..], rest, c);
    }
  }

  /** Joining parts that do not contain the separator loses nothing. */
  lemma {:induction false} JoinInjective(a: seq<Bytes>, b: seq<Bytes>, sep: char)
    requires |a| == |b|
    requires forall i :: 0 <= i < |a| ==> sep !in a[i]
    requires forall i :: 0 <= i < |b| ==> sep !in b[i]
    requires Join(a, sep) == Join(b, sep)
    ensures a == b
  {
    if |a| > 1 {
      var w := Join(a, sep);
      FirstIndexAfterPrefix(a[0], Join(a[1..], sep), sep);
      FirstIndexAfterPrefix(b[0], Join(b[1..], sep), sep);
      assert |a[0]| == |b[0]|;
      assert a[0] == w[..|a[0]|] == b[0];
      assert Join(a[1..], sep) == w[|a[0]| + 1..] == Join(b[1..], sep);
      JoinInjective(a[1..], b[1..], sep);
      assert a == [a[0]] + a[1..] && b == [b[0]] + b[1..];
    }
  }

  /** Every field, base64url-encoded. */
  function EncodeAll(suite: Suite, fields: seq<Bytes>): (r: seq<Bytes>)
    ensures |r| == |fields|
    ensures forall i :: 0 <= i < |fields| ==> r[i] == suite.urlsafeEncode64(fields[i])
  {
    seq(|fields|, i requires 0 <= i < |fields| => suite.urlsafeEncode64(fields[i]))
  }

  /** The signed text: the base64url encodings of the fields, joined by ".". */
  function SignatureSubject(suite: Suite, fields: seq<Bytes>): Bytes {
    Join(EncodeAll(suite, fields), '.')
  }

  /** The subject fixes its fields: a change to any field changes the subject. */
  lemma {:induction false} SignatureSubjectInjective(suite: Suite, a: seq<Bytes>, b: seq<Bytes>)
    requires suite.Base64Sound()
    requires |a| == |b|
    requires SignatureSubject(suite, a) == SignatureSubject(suite, b)
    ensures a == b
  {
    JoinInjective(EncodeAll(suite, a), EncodeAll(suite, b), '.');
    forall i | 0 <= i < |a| ensures a[i] == b[i] {
      assert suite.urlsafeEncode64(a[i]) == suite.urlsafeEncode64(b[i]);
      assert a[i] == suite.urlsafeDecode64(suite.urlsafeEncode64(a[i]));
    }
  }

  /**
   * The subject an element carries: the decoded data, the data type, the
   * encoding and the algorithm, in that order.
   */
  function SubjectOf(suite: Suite, env: EnvElement): Bytes
    requires env.data.Some? && env.data.value.dataType.Some?
    requires env.encoding.Some? && env.alg.Some?
  {
    SignatureSubject(suite, [suite.urlsafeDecode64(env.data.value.content),
                             env.data.value.dataType.value, env.encoding.value, env.alg.value])
  }

  // ---------------------------------------------------------------------
  // Building an envelope

  /**
   * `envelop`: the element built from the payload data, signed with `key`.
   * It is an `env` with exactly the children data, encoding, alg and sig;
   * its data type is application/xml; its key_id decodes to the sender; and
   * its signature verifies against the subject read back from the element.
   */
  function Seal(suite: Suite, payloadData: Bytes, sender: Option<DiasporaId>, key: RsaKey): (env: EnvElement)
    ensures env.name == "env"
    ensures ChildNames(env) == ["data", "encoding", "alg", "sig"]
    ensures env.data.Some? && env.data.value.dataType == Some(DataType)
    ensures env.encoding == Some(Encoding) && env.alg == Some(Algorithm)
    ensures env.sig.Some? && (env.sig.value.keyId.Some? <==> sender.Some?)
  {
    var subject := SignatureSubject(suite, [payloadData, DataType, Encoding, Algorithm]);
    var keyId := if sender.Some? then Some(suite.urlsafeEncode64(sender.value)) else None;
    EnvElement("env",
               Some(DataElement(suite.urlsafeEncode64(payloadData), Some(DataType))),
               Some(Encoding),
               Some(Algorithm),
               Some(SigElement(suite.urlsafeEncode64(suite.sign(key, subject)), keyId)))
  }

  /**
   * What a sealed element carries, read back: the data decodes to the payload
   * data, the key_id to the sender, and the signature verifies under the
   * signer's public key against the subject recomputed from the element.
   */
  lemma SealReadsBack(suite: Suite, payloadData: Bytes, sender: Option<DiasporaId>, key: RsaKey)
    requires suite.Base64Sound() && suite.SignatureSound()
    ensures var env := Seal(suite, payloadData, sender, key);
      && suite.urlsafeDecode64(env.data.value.content) == payloadData
      && (sender.Some? ==> suite.urlsafeDecode64(env.sig.value.keyId.value) == sender.value)
      && SubjectOf(suite, env) == SignatureSubject(suite, [payloadData, DataType, Encoding, Algorithm])
      && suite.verify(PublicHalf(key), suite.urlsafeDecode64(env.sig.value.content), SubjectOf(suite, env))
  {
    var env := Seal(suite, payloadData, sender, key);
    var subject := SignatureSubject(suite, [payloadData, DataType, Encoding, Algorithm]);
    assert suite.urlsafeDecode64(env.data.value.content) == payloadData;
    assert [suite.urlsafeDecode64(env.data.value.content), env.data.value.dataType.value, env.encoding.value, env.alg.value]
        == [payloadData, DataType, Encoding, Algorithm];
    assert suite.urlsafeDecode64(env.sig.value.content) == suite.sign(key, subject);
  }

  /**
   * A Magic Envelope on the sending side: the payload entity, the optional
   * sender and the payload data, which `Encrypt` replaces in place.
   */
  class MagicEnvelope {
    const payload: Entity
    const sender: Option<DiasporaId>
    var payloadData: Bytes

    constructor (suite: Suite, payload: Entity, sender: Option<DiasporaId>)
      ensures this.payload == payload && this.sender == sender
      ensures payloadData == suite.pack(payload)
    {
      this.payload := payload;
      this.sender := sender;
      payloadData := suite.pack(payload);
    }

    /**
     * `encrypt!`: replaces the payload data with the base64 of its AES
     * encryption under the freshly generated `key` and `iv`, and returns them.
     */
    method Encrypt(suite: Suite, key: Bytes, iv: Bytes) returns (params: CipherParams)
      modifies this
      ensures params == CipherParams(key, iv)
      ensures payloadData == suite.strictEncode64(suite.aesEncrypt(key, iv, old(payloadData)))
    {
      payloadData := suite.strictEncode64(suite.aesEncrypt(key, iv, payloadData));
      params := CipherParams(key, iv);
    }

    /** `envelop`: the signed element for the current payload data. */
    function Envelop(suite: Suite, signingKey: RsaKey): (env: EnvElement)
      reads this
      ensures env == Seal(suite, payloadData, sender, signingKey)
    {
      Seal(suite, payloadData, sender, signingKey)
    }
  }

  // ---------------------------------------------------------------------
  // Opening an envelope

  /** The sender: the explicit one, or else the decoded key_id of `me:sig`. */
  function ResolveSender(suite: Suite, env: EnvElement, sender: Option<DiasporaId>): Option<DiasporaId> {
    if sender.Some? then sender
    else if env.sig.Some? && env.sig.value.keyId.Some? then Some(suite.urlsafeDecode64(env.sig.value.keyId.value))
    else None
  }

  /** The payload text: decoded, and AES-decrypted when cipher params are given. */
  function ReadData(suite: Suite, content: Bytes, params: Option<CipherParams>): Bytes {
    var data := suite.urlsafeDecode64(content);
    match params
    case None => data
    case Some(p) => suite.aesDecrypt(p.key, p.iv, suite.decode64(data))
  }

  /** An `env` element with data and sig, whose three tags are the supported ones. */
  predicate Supported(env: EnvElement) {
    && env.name == "env"
    && env.data.Some? && env.sig.Some?
    && env.encoding == Some(Encoding)
    && env.alg == Some(Algorithm)
    && env.data.value.dataType == Some(DataType)
  }

  /** The key found for `sender` verifies the signature over the element's subject. */
  predicate Authentic(suite: Suite, env: EnvElement, sender: DiasporaId, fetchPublicKey: DiasporaId -> Option<PublicKey>)
    requires Supported(env)
  {
    && fetchPublicKey(sender).Some?
    && suite.verify(fetchPublicKey(sender).value, suite.urlsafeDecode64(env.sig.value.content), SubjectOf(suite, env))
  }

  /**
   * `unenvelop`: opens an element, with an optional explicit sender and
   * optional cipher params, looking the sender's key up with
   * `fetchPublicKey`. It succeeds exactly when the element is supported, a
   * sender is known and the signature is authentic, and then yields the
   * unpacked payload data and that sender.
   */
  function Unenvelop(suite: Suite, env: EnvElement, sender: Option<DiasporaId>, params: Option<CipherParams>,
                     fetchPublicKey: DiasporaId -> Option<PublicKey>): (r: Result<Opened, Error>)
    ensures r.Ok? <==>
      Supported(env) && ResolveSender(suite, env, sender).Some?
      && Authentic(suite, env, ResolveSender(suite, env, sender).value, fetchPublicKey)
    ensures r.Ok? ==>
      && ResolveSender(suite, env, sender) == Some(r.value.sender)
      && r.value.payload == suite.unpack(ReadData(suite, env.data.value.content, params))
  {
    if env.name != "env" then Err(InvalidEnvelope(NotAnEnvelope))
    else if env.data.None? then Err(InvalidEnvelope(MissingElement("me:data")))
    else if env.sig.None? then Err(InvalidEnvelope(MissingElement("me:sig")))
    else if env.encoding != Some(Encoding) then Err(InvalidEncoding(env.encoding))
    else if env.alg != Some(Algorithm) then Err(InvalidAlgorithm(env.alg))
    else if env.data.value.dataType != Some(DataType) then Err(InvalidDataType(env.data.value.dataType))
    else
      match ResolveSender(suite, env, sender)
      case None => Err(InvalidEnvelope(MissingKeyId))
      case Some(s) =>
        match fetchPublicKey(s)
        case None => Err(SenderKeyNotFound)
        case Some(publicKey) =>
          if !suite.verify(publicKey, suite.urlsafeDecode64(env.sig.value.content), SubjectOf(suite, env))
          then Err(InvalidSignature)
          else Ok(Opened(suite.unpack(ReadData(suite, env.data.value.content, params)), s))
  }

  // ---------------------------------------------------------------------
  // The order of the checks

  /** The checks `unenvelop` makes, one per way it can fail. */
  datatype Check =
    | IsEnvelope | HasData | HasSig
    | EncodingSupported | AlgorithmSupported | DataTypeSupported
    | SenderKnown | KeyKnown | SignatureValid

  /**
   * The order in which the checks are made: structure, then the three tags,
   * then the sender, its key and the signature. A tampered tag is therefore
   * reported as a tag error, never as an invalid signature.
   */
  const CheckOrder: seq<Check> := [IsEnvelope, HasData, HasSig,
                                   EncodingSupported, AlgorithmSupported, DataTypeSupported,
                                   SenderKnown, KeyKnown, SignatureValid]

  /** Whether one check passes. */
  predicate Passes(suite: Suite, env: EnvElement, sender: Option<DiasporaId>,
                   fetchPublicKey: DiasporaId -> Option<PublicKey>, check: Check)
  {
    match check
    case IsEnvelope => env.name == "env"
    case HasData => env.data.Some?
    case HasSig => env.sig.Some?
    case EncodingSupported => env.encoding == Some(Encoding)
    case AlgorithmSupported => env.alg == Some(Algorithm)
    case DataTypeSupported => env.data.Some? && env.data.value.dataType == Some(DataType)
    case SenderKnown => ResolveSender(suite, env, sender).Some?
    case KeyKnown =>
      ResolveSender(suite, env, sender).Some? && fetchPublicKey(ResolveSender(suite, env, sender).value).Some?
    case SignatureValid =>
      Supported(env) && ResolveSender(suite, env, sender).Some?
      && Authentic(suite, env, ResolveSender(suite, env, sender).value, fetchPublicKey)
  }

  /** The error a failing check raises. */
  function FailureOf(env: EnvElement, check: Check): Error {
    match check
    case IsEnvelope => InvalidEnvelope(NotAnEnvelope)
    case HasData => InvalidEnvelope(MissingElement("me:data"))
    case HasSig => InvalidEnvelope(MissingElement("me:sig"))
    case EncodingSupported => InvalidEncoding(env.encoding)
    case AlgorithmSupported => InvalidAlgorithm(env.alg)
    case DataTypeSupported => InvalidDataType(if env.data.Some? then env.data.value.dataType else None)
    case SenderKnown => InvalidEnvelope(MissingKeyId)
    case KeyKnown => SenderKeyNotFound
    case SignatureValid => InvalidSignature
  }

  /** The position of the first failing check of `checks`, if any. */
  function FirstFailing(suite: Suite, env: EnvElement, sender: Option<DiasporaId>,
                        fetchPublicKey: DiasporaId -> Option<PublicKey>, checks: seq<Check>): (r: Option<nat>)
    ensures r.None? <==> forall i :: 0 <= i < |checks| ==> Passes(suite, env, sender, fetchPublicKey, checks[i])
    ensures r.Some? ==>
      && r.value < |checks|
      && !Passes(suite, env, sender, fetchPublicKey, checks[r.value])
      && forall i :: 0 <= i < r.value ==> Passes(suite, env, sender, fetchPublicKey, checks[i])
  {
    if checks == [] then None
    else if !Passes(suite, env, sender, fetchPublicKey, checks[0]) then Some(0)
    else
      match FirstFailing(suite, env, sender, fetchPublicKey, checks[1..])
      case None => None
      case Some(i) => Some(i + 1)
  }

  /**
   * `unenvelop` raises the error of the first failing check in `CheckOrder`,
   * and succeeds when every check passes.
   */
  lemma UnenvelopFollowsCheckOrder(suite: Suite, env: EnvElement, sender: Option<DiasporaId>,
                                   params: Option<CipherParams>, fetchPublicKey: DiasporaId -> Option<PublicKey>)
    ensures var first := FirstFailing(suite, env, sender, fetchPublicKey, CheckOrder);
      && (first.None? ==> Unenvelop(suite, env, sender, params, fetchPublicKey).Ok?)
      && (first.Some? ==> Unenvelop(suite, env, sender, params, fetchPublicKey) == Err(FailureOf(env, CheckOrder[first.value])))
  {
    var first := FirstFailing(suite, env, sender, fetchPublicKey, CheckOrder);
    // Every check before position k passed (k is 9 when none failed).
    var k := if first.Some? then first.value else |CheckOrder|;
    assert CheckOrder[0] == IsEnvelope && CheckOrder[1] == HasData && CheckOrder[2] == HasSig;
    assert CheckOrder[3] == EncodingSupported && CheckOrder[4] == AlgorithmSupported;
    assert CheckOrder[5] == DataTypeSupported && CheckOrder[6] == SenderKnown;
    assert CheckOrder[7] == KeyKnown && CheckOrder[8] == SignatureValid;
    // One case per position of the first failing check.
    if k == 0 {
    } else if k == 1 {
    } else if k == 2 {
    } else if k == 3 {
    } else if k == 4 {
    } else if k == 5 {
    } else if k == 6 {
    } else if k == 7 {
    } else if k == 8 {
    } else {
    }
  }

  // ---------------------------------------------------------------------
  // Round trips

  /**
   * An envelope sealed with `key` opens to its payload data and sender
   * whenever the sender's key is found, with the sender given explicitly or
   * read from key_id.
   */
  lemma UnenvelopSealed(suite: Suite, payloadData: Bytes, envSender: Option<DiasporaId>, key: RsaKey,
                        s: DiasporaId, sender: Option<DiasporaId>, params: Option<CipherParams>,
                        fetchPublicKey: DiasporaId -> Option<PublicKey>)
    requires suite.Base64Sound() && suite.SignatureSound()
    requires sender == Some(s) || (sender == None && envSender == Some(s))
    requires fetchPublicKey(s) == Some(PublicHalf(key))
    ensures Unenvelop(suite, Seal(suite, payloadData, envSender, key), sender, params, fetchPublicKey)
         == Ok(Opened(suite.unpack(ReadData(suite, suite.urlsafeEncode64(payloadData), params)), s))
  {
    SealReadsBack(suite, payloadData, envSender, key);
  }

  /** `unenvelop(envelop(e))` gives back the entity `e` and its sender. */
  lemma RoundTrip(suite: Suite, e: Entity, s: DiasporaId, sender: Option<DiasporaId>, key: RsaKey,
                  fetchPublicKey: DiasporaId -> Option<PublicKey>)
    requires suite.Base64Sound() && suite.SignatureSound() && suite.CodecSound()
    requires sender == Some(s) || sender == None
    requires fetchPublicKey(s) == Some(PublicHalf(key))
    ensures Unenvelop(suite, Seal(suite, suite.pack(e), Some(s), key), sender, None, fetchPublicKey)
         == Ok(Opened(e, s))
  {
    UnenvelopSealed(suite, suite.pack(e), Some(s), key, s, sender, None, fetchPublicKey);
  }

  /**
   * An envelope whose payload data was encrypted by `encrypt!` opens to the
   * original entity when the returned cipher params are passed back.
   */
  lemma EncryptedRoundTrip(suite: Suite, e: Entity, envSender: Option<DiasporaId>, key: RsaKey,
                           aesKey: Bytes, iv: Bytes, s: DiasporaId, sender: Option<DiasporaId>,
                           fetchPublicKey: DiasporaId -> Option<PublicKey>)
    requires suite.Sound()
    requires sender == Some(s) || (sender == None && envSender == Some(s))
    requires fetchPublicKey(s) == Some(PublicHalf(key))
    ensures var encrypted := suite.strictEncode64(suite.aesEncrypt(aesKey, iv, suite.pack(e)));
      Unenvelop(suite, Seal(suite, encrypted, envSender, key), sender, Some(CipherParams(aesKey, iv)), fetchPublicKey)
      == Ok(Opened(e, s))
  {
    var encrypted := suite.strictEncode64(suite.aesEncrypt(aesKey, iv, suite.pack(e)));
    UnenvelopSealed(suite, encrypted, envSender, key, s, sender, Some(CipherParams(aesKey, iv)), fetchPublicKey);
    assert ReadData(suite, suite.urlsafeEncode64(encrypted), Some(CipherParams(aesKey, iv))) == suite.pack(e);
  }

  /**
   * The sending side end to end: build an envelope without a sender,
   * `encrypt!` it, `envelop` it and `unenvelop` it with the returned params
   * and an explicit sender; the original entity comes back.
   */
  method DecryptOnTheFly(suite: Suite, payload: Entity, s: DiasporaId, signingKey: RsaKey,
                         aesKey: Bytes, iv: Bytes, fetchPublicKey: DiasporaId -> Option<PublicKey>)
    returns (r: Result<Opened, Error>)
    requires suite.Sound()
    requires fetchPublicKey(s) == Some(PublicHalf(signingKey))
    ensures r == Ok(Opened(payload, s))
  {
    var env := new MagicEnvelope(suite, payload, None);
    var params := env.Encrypt(suite, aesKey, iv);
    var xml := env.Envelop(suite, signingKey);
    r := Unenvelop(suite, xml, Some(s), Some(params), fetchPublicKey);
    EncryptedRoundTrip(suite, payload, None, signingKey, aesKey, iv, s, Some(s), fetchPublicKey);
  }

  // ---------------------------------------------------------------------
  // Tampering and failures

  /** Checked against a key other than the signer's, the signature fails. */
  lemma WrongKeyFailsSignature(suite: Suite, payloadData: Bytes, envSender: Option<DiasporaId>, key: RsaKey,
                               other: DiasporaId, otherKey: PublicKey, params: Option<CipherParams>,
                               fetchPublicKey: DiasporaId -> Option<PublicKey>)
    requires suite.Base64Sound() && suite.SignatureSound()
    requires fetchPublicKey(other) == Some(otherKey) && otherKey != PublicHalf(key)
    ensures Unenvelop(suite, Seal(suite, payloadData, envSender, key), Some(other), params, fetchPublicKey)
         == Err(InvalidSignature)
  {
    SealReadsBack(suite, payloadData, envSender, key);
  }

  /** Data replaced by content that decodes to anything else fails the signature. */
  lemma TamperedDataFailsSignature(suite: Suite, payloadData: Bytes, envSender: Option<DiasporaId>, key: RsaKey,
                                   content: Bytes, s: DiasporaId, params: Option<CipherParams>,
                                   fetchPublicKey: DiasporaId -> Option<PublicKey>)
    requires suite.Base64Sound() && suite.SignatureSound()
    requires suite.urlsafeDecode64(content) != payloadData
    requires fetchPublicKey(s) == Some(PublicHalf(key))
    ensures var env := Seal(suite, payloadData, envSender, key);
      Unenvelop(suite, env.(data := Some(DataElement(content, Some(DataType)))), Some(s), params, fetchPublicKey)
      == Err(InvalidSignature)
  {
    var env := Seal(suite, payloadData, envSender, key);
    var tampered := env.(data := Some(DataElement(content, Some(DataType))));
    var signed := [payloadData, DataType, Encoding, Algorithm];
    var seen := [suite.urlsafeDecode64(content), DataType, Encoding, Algorithm];
    SealReadsBack(suite, payloadData, envSender, key);
    assert SubjectOf(suite, tampered) == SignatureSubject(suite, seen);
    assert suite.urlsafeDecode64(tampered.sig.value.content) == suite.sign(key, SignatureSubject(suite, signed));
    if SignatureSubject(suite, seen) == SignatureSubject(suite, signed) {
      SignatureSubjectInjective(suite, seen, signed);
    }
  }

  /**
   * A sealed envelope with one part removed or altered fails with the error
   * for that part, in the order of `CheckOrder`, whatever the primitives.
   */
  lemma DamagedSealedEnvelopes(suite: Suite, payloadData: Bytes, s: DiasporaId, key: RsaKey,
                               v: string, params: Option<CipherParams>,
                               fetchPublicKey: DiasporaId -> Option<PublicKey>)
    ensures var env := Seal(suite, payloadData, Some(s), key);
      && Unenvelop(suite, env.(name := "asdf"), Some(s), params, fetchPublicKey) == Err(InvalidEnvelope(NotAnEnvelope))
      && Unenvelop(suite, env.(sig := None), Some(s), params, fetchPublicKey)
         == Err(InvalidEnvelope(MissingElement("me:sig")))
      && Unenvelop(suite, env.(data := None), Some(s), params, fetchPublicKey)
         == Err(InvalidEnvelope(MissingElement("me:data")))
      && Unenvelop(suite, env.(encoding := None), Some(s), params, fetchPublicKey) == Err(InvalidEncoding(None))
      && (v != Encoding ==>
          Unenvelop(suite, env.(encoding := Some(v)), Some(s), params, fetchPublicKey) == Err(InvalidEncoding(Some(v))))
      && Unenvelop(suite, env.(alg := None), Some(s), params, fetchPublicKey) == Err(InvalidAlgorithm(None))
      && (v != Algorithm ==>
          Unenvelop(suite, env.(alg := Some(v)), Some(s), params, fetchPublicKey) == Err(InvalidAlgorithm(Some(v))))
      && Unenvelop(suite, env.(data := Some(env.data.value.(dataType := None))), Some(s), params, fetchPublicKey)
         == Err(InvalidDataType(None))
      && (v != DataType ==>
          Unenvelop(suite, env.(data := Some(env.data.value.(dataType := Some(v)))), Some(s), params, fetchPublicKey)
          == Err(InvalidDataType(Some(v))))
      && Unenvelop(suite, env.(sig := Some(env.sig.value.(keyId := None))), None, params, fetchPublicKey)
         == Err(InvalidEnvelope(MissingKeyId))
  {
  }

  /** A sealed envelope whose sender, read from key_id, has no known key fails with SenderKeyNotFound. */
  lemma UnknownSenderKey(suite: Suite, payloadData: Bytes, s: DiasporaId, key: RsaKey,
                         params: Option<CipherParams>, fetchPublicKey: DiasporaId -> Option<PublicKey>)
    requires suite.Base64Sound()
    requires fetchPublicKey(s) == None
    ensures Unenvelop(suite, Seal(suite, payloadData, Some(s), key), None, params, fetchPublicKey) == Err(SenderKeyNotFound)
  {
    var env := Seal(suite, payloadData, Some(s), key);
    assert ResolveSender(suite, env, None) == Some(s);
  }
}
