/**
 * Concrete primitives that have every property `Primitives.Suite` and
 * `Receiver.Wire` are required to have. They show that those properties are
 * consistent, so the lemmas that require them speak about real suites.
 *
 * Every text is written in a self-delimiting form: each character as a
 * pair ('.' as ",1", any other character c as c followed by '0'), then the
 * terminator ",2". That form never contains '.', so it also stands in for
 * url-safe base64.
 */
module Witness {
  import opened Wrappers
  import opened Entities
  import opened Errors
  import opened Primitives
  import ME = MagicEnvelope
  import Receiver

  // ---------------------------------------------------------------------
  // Self-delimiting texts

  /** Each character as a pair that contains no '.'. */
  function Escape(s: string): (r: string)
    ensures '.' !in r
  {
    if s == [] then []
    else (if s[0] == '.' then [',', '1'] else [s[0], '0']) + Escape(s[1..])
  }

  /** The escaped text followed by the terminator. */
  function Frame(s: string): (r: string)
    ensures '.' !in r
  {
    Escape(s) + [',', '2']
  }

  /** Reads one framed text off the front of `t`: the text and what follows it. */
  function Unframe(t: string): (r: (string, string))
    ensures |r.1| <= |t|
  {
    if |t| < 2 then ("", [])
    else if t[1] == '2' then ("", t[2..])
    else
      var (s, rest) := Unframe(t[2..]);
      ([if t[1] == '1' then '.' else t[0]] + s, rest)
  }

  /** Reading a framed text gives back the text and leaves what follows untouched. */
  lemma {:induction false} UnframeFrame(s: string, rest: string)
    ensures Unframe(Frame(s) + rest) == (s, rest)
  {
    if s != [] {
      var pair := if s[0] == '.' then [',', '1'] else [s[0], '0'];
      assert Frame(s) + rest == pair + (Frame(s[1..]) + rest);
      assert (pair + (Frame(s[1..]) + rest))[2..] == Frame(s[1..]) + rest;
      UnframeFrame(s[1..], rest);
      assert s == [if pair[1] == '1' then '.' else pair[0]] + s[1..];
    }
  }

  /** An optional text: "-" when absent, "+" and the framed text when present. */
  function FrameOpt(o: Option<string>): string {
    match o
    case None => "-"
    case Some(v) => "+" + Frame(v)
  }

  function UnframeOpt(t: string): (r: (Option<string>, string))
    ensures |r.1| <= |t|
  {
    if t != [] && t[0] == '+' then
      var (v, rest) := Unframe(t[1..]);
      (Some(v), rest)
    else (None, if t == [] then [] else t[1..])
  }

  lemma UnframeOptFrameOpt(o: Option<string>, rest: string)
    ensures UnframeOpt(FrameOpt(o) + rest) == (o, rest)
  {
    if o.Some? {
      assert (FrameOpt(o) + rest)[1..] == Frame(o.value) + rest;
      UnframeFrame(o.value, rest);
    } else {
      assert (FrameOpt(o) + rest)[1..] == rest;
    }
  }

  // ---------------------------------------------------------------------
  // Signatures and entities

  /** `n` marks: a key id written out. */
  function Tally(n: nat): (r: string)
    ensures |r| == n
  {
    seq(n, _ => 'x')
  }

  /** A signature names the key pair and carries the signed text. */
  function Sign(k: RsaKey, m: Bytes): Bytes {
    Frame(Tally(k.id)) + m
  }

  function Verify(p: PublicKey, sig: Bytes, m: Bytes): bool {
    sig == Frame(Tally(p.id)) + m
  }

  function PackProperties(ps: seq<(string, string)>): string {
    if ps == [] then "-"
    else "+" + (Frame(ps[0].0) + (Frame(ps[0].1) + PackProperties(ps[1..])))
  }

  function UnpackProperties(t: string): seq<(string, string)>
    decreases |t|
  {
    if t == [] || t[0] != '+' then []
    else
      var (k, r1) := Unframe(t[1..]);
      var (v, r2) := Unframe(r1);
      [(k, v)] + UnpackProperties(r2)
  }

  lemma {:induction false} UnpackPackProperties(ps: seq<(string, string)>)
    ensures UnpackProperties(PackProperties(ps)) == ps
  {
    if ps != [] {
      var t := PackProperties(ps);
      var tail := Frame(ps[0].1) + PackProperties(ps[1..]);
      assert t[1..] == Frame(ps[0].0) + tail;
      UnframeFrame(ps[0].0, tail);
      UnframeFrame(ps[0].1, PackProperties(ps[1..]));
      UnpackPackProperties(ps[1..]);
      assert ps == [ps[0]] + ps[1..];
    }
  }

  function PackEntity(e: Entity): string {
    Frame(e.kind) + (Frame(e.author) + PackProperties(e.properties))
  }

  function UnpackEntity(t: string): Entity {
    var (kind, r1) := Unframe(t);
    var (author, r2) := Unframe(r1);
    Entity(kind, author, UnpackProperties(r2))
  }

  lemma UnpackPackEntity(e: Entity)
    ensures UnpackEntity(PackEntity(e)) == e
  {
    UnframeFrame(e.kind, Frame(e.author) + PackProperties(e.properties));
    UnframeFrame(e.author, PackProperties(e.properties));
    UnpackPackProperties(e.properties);
  }

  /** The text a framed text stands for. */
  function Unescape(t: string): string {
    Unframe(t).0
  }

  /** Strict base64 stands in as the identity. */
  function Same(b: Bytes): Bytes {
    b
  }

  /** AES stands in as the identity, whatever the key and IV. */
  function Unciphered(key: Bytes, iv: Bytes, b: Bytes): Bytes {
    b
  }

  /** The witness suite: framing as url-safe base64, identities for strict base64 and AES. */
  function WitnessSuite(): Suite {
    Suite(Frame, Unescape, Same, Same, Sign, Verify, Unciphered, Unciphered, PackEntity, UnpackEntity)
  }

  /** Framing is read back by unframing, with nothing left over. */
  lemma UnframeFrameAlone(b: string)
    ensures Unframe(Frame(b)).0 == b
  {
    UnframeFrame(b, []);
    assert Frame(b) + [] == Frame(b);
  }

  lemma {:induction false} WitnessBase64()
    ensures WitnessSuite().Base64Sound()
  {
    var suite := WitnessSuite();
    forall b ensures suite.urlsafeDecode64(suite.urlsafeEncode64(b)) == b {
      UnframeFrameAlone(b);
    }
  }

  /** A signature names one key id and one signed text. */
  lemma SignatureBinds(p: PublicKey, k: RsaKey, m: Bytes, m': Bytes)
    requires Verify(p, Sign(k, m), m')
    ensures p == PublicHalf(k) && m' == m
  {
    UnframeFrame(Tally(k.id), m);
    UnframeFrame(Tally(p.id), m');
    assert |Tally(k.id)| == |Tally(p.id)|;
  }

  /** No signature verifies under another key or for another text. */
  lemma {:induction false} SignaturesBindAll()
    ensures forall p, k, m, m' :: Verify(p, Sign(k, m), m') ==> p == PublicHalf(k) && m' == m
  {
    forall p, k, m, m' | Verify(p, Sign(k, m), m')
      ensures p == PublicHalf(k) && m' == m
    {
      SignatureBinds(p, k, m, m');
    }
  }

  lemma WitnessSignaturesVerify()
    ensures WitnessSuite().SignaturesVerify()
  {
  }

  lemma WitnessBinding()
    ensures forall p, k, m, m' ::
      WitnessSuite().verify(p, WitnessSuite().sign(k, m), m') ==> p == PublicHalf(k) && m' == m
  {
    SignaturesBindAll();
  }

  lemma WitnessSignaturesBind()
    ensures WitnessSuite().SignaturesBind()
  {
    WitnessBinding();
  }

  lemma {:induction false} WitnessCodec()
    ensures WitnessSuite().CodecSound()
  {
    var suite := WitnessSuite();
    forall e ensures suite.unpack(suite.pack(e)) == e {
      UnpackPackEntity(e);
    }
  }

  /** The witness suite has every property a suite is required to have. */
  lemma SuiteSound()
    ensures WitnessSuite().Sound()
  {
    WitnessBase64();
    WitnessSignaturesVerify();
    WitnessSignaturesBind();
    WitnessCodec();
  }

  /**
   * With the witness suite, an envelope sealed by a sender whose key is
   * found opens to the entity and the sender: the round trip holds for a
   * concrete suite, not only under its required properties.
   */
  lemma WitnessRoundTrip(e: Entity, s: DiasporaId, key: RsaKey, fetchPublicKey: DiasporaId -> Option<PublicKey>)
    requires fetchPublicKey(s) == Some(PublicHalf(key))
    ensures ME.Unenvelop(WitnessSuite(), ME.Seal(WitnessSuite(), PackEntity(e), Some(s), key), None, None, fetchPublicKey)
         == Ok(ME.Opened(e, s))
  {
    SuiteSound();
    ME.RoundTrip(WitnessSuite(), e, s, None, key, fetchPublicKey);
  }

  // ---------------------------------------------------------------------
  // Envelope elements and the legacy formats

  /**
   * An optional child element with some content and one optional
   * attribute: "-" when absent, else "+", the framed content and the
   * framed attribute.
   */
  function PackChild(o: Option<(string, Option<string>)>): string {
    match o
    case None => "-"
    case Some(x) => "+" + (Frame(x.0) + FrameOpt(x.1))
  }

  function UnpackChild(t: string): (r: (Option<(string, Option<string>)>, string))
    ensures |r.1| <= |t|
  {
    if t != [] && t[0] == '+' then
      var r1 := Unframe(t[1..]);
      var r2 := UnframeOpt(r1.1);
      (Some((r1.0, r2.0)), r2.1)
    else (None, if t == [] then [] else t[1..])
  }

  lemma UnpackPackChild(o: Option<(string, Option<string>)>, rest: string)
    ensures UnpackChild(PackChild(o) + rest) == (o, rest)
  {
    if o.Some? {
      var inner := Frame(o.value.0) + (FrameOpt(o.value.1) + rest);
      assert PackChild(o) + rest == ['+'] + inner;
      assert (['+'] + inner)[1..] == inner;
      UnframeFrame(o.value.0, FrameOpt(o.value.1) + rest);
      UnframeOptFrameOpt(o.value.1, rest);
    } else {
      assert PackChild(o) + rest == ['-'] + rest;
      assert (['-'] + rest)[1..] == rest;
    }
  }

  function DataParts(d: Option<ME.DataElement>): Option<(string, Option<string>)> {
    match d
    case None => None
    case Some(x) => Some((x.content, x.dataType))
  }

  function DataOf(p: Option<(string, Option<string>)>): (r: Option<ME.DataElement>)
    ensures DataParts(r) == p
  {
    match p
    case None => None
    case Some(x) => Some(ME.DataElement(x.0, x.1))
  }

  function SigParts(g: Option<ME.SigElement>): Option<(string, Option<string>)> {
    match g
    case None => None
    case Some(x) => Some((x.content, x.keyId))
  }

  function SigOf(p: Option<(string, Option<string>)>): (r: Option<ME.SigElement>)
    ensures SigParts(r) == p
  {
    match p
    case None => None
    case Some(x) => Some(ME.SigElement(x.0, x.1))
  }

  function PackEnv(env: ME.EnvElement): string {
    Frame(env.name) + (PackChild(DataParts(env.data)) + (FrameOpt(env.encoding) + (FrameOpt(env.alg) + PackChild(SigParts(env.sig)))))
  }

  function UnpackEnv(t: string): ME.EnvElement {
    var name := Unframe(t);
    var data := UnpackChild(name.1);
    var encoding := UnframeOpt(data.1);
    var alg := UnframeOpt(encoding.1);
    var sig := UnpackChild(alg.1);
    ME.EnvElement(name.0, DataOf(data.0), encoding.0, alg.0, SigOf(sig.0))
  }

  lemma UnpackPackEnv(env: ME.EnvElement)
    ensures UnpackEnv(PackEnv(env)) == env
  {
    var sig := PackChild(SigParts(env.sig));
    var tail3 := FrameOpt(env.alg) + sig;
    var tail2 := FrameOpt(env.encoding) + tail3;
    var tail1 := PackChild(DataParts(env.data)) + tail2;
    UnframeFrame(env.name, tail1);
    assert Unframe(PackEnv(env)) == (env.name, tail1);
    UnpackPackChild(DataParts(env.data), tail2);
    UnframeOptFrameOpt(env.encoding, tail3);
    UnframeOptFrameOpt(env.alg, sig);
    assert sig + [] == sig;
    UnpackPackChild(SigParts(env.sig), []);
    assert UnpackChild(sig).0 == SigParts(env.sig);
    assert DataOf(DataParts(env.data)) == env.data;
    assert SigOf(SigParts(env.sig)) == env.sig;
  }

  /** A legacy message: the framed sender, then the packed entity. */
  function PackSlap(s: DiasporaId, e: Entity): string {
    Frame(s) + PackEntity(e)
  }

  function UnpackSlap(t: string): Result<ME.Opened, Error> {
    var (s, rest) := Unframe(t);
    Ok(ME.Opened(UnpackEntity(rest), s))
  }

  lemma UnpackPackSlap(s: DiasporaId, e: Entity)
    ensures UnpackSlap(PackSlap(s, e)) == Ok(ME.Opened(e, s))
  {
    UnframeFrame(s, PackEntity(e));
    UnpackPackEntity(e);
  }

  function Encrypted(env: ME.EnvElement, pk: PublicKey): string {
    PackEnv(env)
  }

  function Decrypted(t: string, k: RsaKey): ME.EnvElement {
    UnpackEnv(t)
  }

  function GenerateSlap(s: DiasporaId, k: RsaKey, e: Entity): string {
    PackSlap(s, e)
  }

  function ParseSlap(t: string, fetch: DiasporaId -> Option<PublicKey>): Result<ME.Opened, Error> {
    UnpackSlap(t)
  }

  function GenerateEncryptedSlap(s: DiasporaId, k: RsaKey, e: Entity, pk: PublicKey): string {
    PackSlap(s, e)
  }

  function ParseEncryptedSlap(t: string, rk: RsaKey, fetch: DiasporaId -> Option<PublicKey>): Result<ME.Opened, Error> {
    UnpackSlap(t)
  }

  /** The witness wire formats, with encryption for a recipient as the identity. */
  function WitnessWire(): Receiver.Wire {
    Receiver.Wire(PackEnv, UnpackEnv, Encrypted, Decrypted, GenerateSlap, ParseSlap,
                  GenerateEncryptedSlap, ParseEncryptedSlap)
  }

  /** The witness wire formats have every property the entry points require. */
  lemma WireSound()
    ensures WitnessWire().Sound()
  {
    var wire := WitnessWire();
    forall env ensures wire.parseXml(wire.toXml(env)) == env {
      UnpackPackEnv(env);
    }
    forall env, k ensures wire.decryptEnvelope(wire.encryptEnvelope(env, PublicHalf(k)), k) == env {
      UnpackPackEnv(env);
    }
    forall s, k, e, fetch: DiasporaId -> Option<PublicKey> | fetch(s) == Some(PublicHalf(k))
      ensures wire.parseSlap(wire.generateSlap(s, k, e), fetch) == Ok(ME.Opened(e, s))
    {
      UnpackPackSlap(s, e);
    }
    forall s, k, e, rk, fetch: DiasporaId -> Option<PublicKey> | fetch(s) == Some(PublicHalf(k))
      ensures wire.parseEncryptedSlap(wire.generateEncryptedSlap(s, k, e, PublicHalf(rk)), rk, fetch)
           == Ok(ME.Opened(e, s))
    {
      UnpackPackSlap(s, e);
    }
  }
}
