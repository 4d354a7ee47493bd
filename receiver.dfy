/**
 * The entry points for received messages: public ones, and private ones
 * that are decrypted first, each in the current Magic Envelope format or
 * the legacy Slap format.
 */
module Receiver {
  import opened Wrappers
  import opened Entities
  import opened Errors
  import opened Primitives
  import ME = MagicEnvelope
  import opened AbstractReceiver

  /**
   * The wire-level codecs the entry points rely on: the XML text of an
   * envelope element, the hybrid encryption of an element for one
   * recipient, and the legacy Slap and EncryptedSlap formats.
   */
  datatype Wire = Wire(
    toXml: ME.EnvElement -> Bytes,
    parseXml: Bytes -> ME.EnvElement,
    encryptEnvelope: (ME.EnvElement, PublicKey) -> Bytes,
    decryptEnvelope: (Bytes, RsaKey) -> ME.EnvElement,
    generateSlap: (DiasporaId, RsaKey, Entity) -> Bytes,
    parseSlap: (Bytes, DiasporaId -> Option<PublicKey>) -> Result<ME.Opened, Error>,
    generateEncryptedSlap: (DiasporaId, RsaKey, Entity, PublicKey) -> Bytes,
    parseEncryptedSlap: (Bytes, RsaKey, DiasporaId -> Option<PublicKey>) -> Result<ME.Opened, Error>)
  {
    /** Parsing an element's XML text gives the element back. */
    ghost predicate XmlSound() {
      forall env :: parseXml(toXml(env)) == env
    }

    /** The recipient's private key inverts the encryption for its public half. */
    ghost predicate EncryptionSound() {
      forall env, k :: decryptEnvelope(encryptEnvelope(env, PublicHalf(k)), k) == env
    }

    /** A Slap generated by a sender whose key is found opens to that entity and sender. */
    ghost predicate SlapSound() {
      forall s, k, e, fetch: DiasporaId -> Option<PublicKey> | fetch(s) == Some(PublicHalf(k)) ::
        parseSlap(generateSlap(s, k, e), fetch) == Ok(ME.Opened(e, s))
    }

    /**
     * An EncryptedSlap generated for a recipient, by a sender whose key is
     * found, opens with the recipient's private key to that entity and sender.
     */
    ghost predicate EncryptedSlapSound() {
      forall s, k, e, rk, fetch: DiasporaId -> Option<PublicKey> | fetch(s) == Some(PublicHalf(k)) ::
        parseEncryptedSlap(generateEncryptedSlap(s, k, e, PublicHalf(rk)), rk, fetch) == Ok(ME.Opened(e, s))
    }

    /** All the facts the entry points rely on. */
    ghost predicate Sound() {
      XmlSound() && EncryptionSound() && SlapSound() && EncryptedSlapSound()
    }
  }

  /** Either an error before any dispatch, or the run of a receiver. */
  function ReceiveOpened(unwrapped: Result<ME.Opened, Error>, recipientId: Option<RecipientId>,
                         senderChecks: SenderChecks, receiveEntity: Delivery -> Outcome<Error>): (run: Run)
    ensures unwrapped.Err? ==> run == Run(None, Fail(unwrapped.error))
    ensures unwrapped.Ok? ==> run == Receive(New(unwrapped.value, recipientId), senderChecks, receiveEntity)
  {
    match unwrapped
    case Err(e) => Run(None, Fail(e))
    case Ok(env) => Receive(New(env, recipientId), senderChecks, receiveEntity)
  }

  /**
   * `receive_public`: parses the data as a Magic Envelope (or, with `legacy`,
   * as a Slap), opens it with the sender taken from the envelope and the key
   * looked up by `fetchPublicKey`, and receives the entity with no recipient.
   */
  function ReceivePublic(suite: Suite, wire: Wire, data: Bytes, legacy: bool,
                         fetchPublicKey: DiasporaId -> Option<PublicKey>, senderChecks: SenderChecks,
                         receiveEntity: Delivery -> Outcome<Error>): (run: Run)
    ensures run.dispatched.Some? ==> run.dispatched.value.recipientId == None
  {
    var unwrapped :=
      if legacy then wire.parseSlap(data, fetchPublicKey)
      else ME.Unenvelop(suite, wire.parseXml(data), None, None, fetchPublicKey);
    ReceiveOpened(unwrapped, None, senderChecks, receiveEntity)
  }

  /**
   * `receive_private`: without a recipient key it raises "no recipient key
   * provided" before anything else; otherwise it decrypts the data with
   * that key (as an encrypted Magic Envelope or, with `legacy`, an
   * EncryptedSlap), opens it, and receives the entity for `recipientId`.
   */
  function ReceivePrivate(suite: Suite, wire: Wire, data: Bytes, recipientKey: Option<RsaKey>,
                          recipientId: Option<RecipientId>, legacy: bool,
                          fetchPublicKey: DiasporaId -> Option<PublicKey>, senderChecks: SenderChecks,
                          receiveEntity: Delivery -> Outcome<Error>): (run: Run)
    ensures recipientKey.None? ==> run == Run(None, Fail(ArgumentError("no recipient key provided")))
    ensures run.dispatched.Some? ==> run.dispatched.value.recipientId == recipientId
  {
    match recipientKey
    case None => Run(None, Fail(ArgumentError("no recipient key provided")))
    case Some(key) =>
      var unwrapped :=
        if legacy then wire.parseEncryptedSlap(data, key, fetchPublicKey)
        else ME.Unenvelop(suite, wire.decryptEnvelope(data, key), None, None, fetchPublicKey);
      ReceiveOpened(unwrapped, recipientId, senderChecks, receiveEntity)
  }

  /**
   * A public Magic Envelope built by the sender reaches the receiver as that
   * entity from that sender, with no recipient; when the sender may act for
   * the entity, `receive_entity` gets exactly (entity, sender, nil).
   */
  lemma PublicDelivers(suite: Suite, wire: Wire, e: Entity, s: DiasporaId, key: RsaKey,
                       fetchPublicKey: DiasporaId -> Option<PublicKey>, senderChecks: SenderChecks,
                       receiveEntity: Delivery -> Outcome<Error>)
    requires suite.Base64Sound() && suite.SignatureSound() && suite.CodecSound() && wire.XmlSound()
    requires fetchPublicKey(s) == Some(PublicHalf(key))
    ensures var data := wire.toXml(ME.Seal(suite, suite.pack(e), Some(s), key));
      var run := ReceivePublic(suite, wire, data, false, fetchPublicKey, senderChecks, receiveEntity);
      && run == Receive(Receiver(e, s, None), senderChecks, receiveEntity)
      && (SenderValid(Receiver(e, s, None), senderChecks) ==> run.dispatched == Some(Delivery(e, s, None)))
  {
    ME.RoundTrip(suite, e, s, None, key, fetchPublicKey);
  }

  /** The legacy Slap format gives the same run as the current format. */
  lemma PublicLegacyAgrees(suite: Suite, wire: Wire, e: Entity, s: DiasporaId, key: RsaKey,
                           fetchPublicKey: DiasporaId -> Option<PublicKey>, senderChecks: SenderChecks,
                       receiveEntity: Delivery -> Outcome<Error>)
    requires suite.Base64Sound() && suite.SignatureSound() && suite.CodecSound() && wire.XmlSound() && wire.SlapSound()
    requires fetchPublicKey(s) == Some(PublicHalf(key))
    ensures ReceivePublic(suite, wire, wire.generateSlap(s, key, e), true, fetchPublicKey, senderChecks, receiveEntity)
         == ReceivePublic(suite, wire, wire.toXml(ME.Seal(suite, suite.pack(e), Some(s), key)), false,
                          fetchPublicKey, senderChecks, receiveEntity)
  {
    PublicDelivers(suite, wire, e, s, key, fetchPublicKey, senderChecks, receiveEntity);
  }

  /**
   * A Magic Envelope encrypted for the recipient reaches the receiver as
   * that entity from that sender, with the recipient id passed through.
   */
  lemma PrivateDelivers(suite: Suite, wire: Wire, e: Entity, s: DiasporaId, key: RsaKey, recipientKey: RsaKey,
                        recipientId: Option<RecipientId>, fetchPublicKey: DiasporaId -> Option<PublicKey>,
                        senderChecks: SenderChecks, receiveEntity: Delivery -> Outcome<Error>)
    requires suite.Base64Sound() && suite.SignatureSound() && suite.CodecSound() && wire.EncryptionSound()
    requires fetchPublicKey(s) == Some(PublicHalf(key))
    ensures var data := wire.encryptEnvelope(ME.Seal(suite, suite.pack(e), Some(s), key), PublicHalf(recipientKey));
      var run := ReceivePrivate(suite, wire, data, Some(recipientKey), recipientId, false, fetchPublicKey, senderChecks, receiveEntity);
      && run == Receive(Receiver(e, s, recipientId), senderChecks, receiveEntity)
      && (SenderValid(Receiver(e, s, recipientId), senderChecks) ==> run.dispatched == Some(Delivery(e, s, recipientId)))
  {
    ME.RoundTrip(suite, e, s, None, key, fetchPublicKey);
  }

  /** The legacy EncryptedSlap format gives the same run as the current format. */
  lemma PrivateLegacyAgrees(suite: Suite, wire: Wire, e: Entity, s: DiasporaId, key: RsaKey, recipientKey: RsaKey,
                            recipientId: Option<RecipientId>, fetchPublicKey: DiasporaId -> Option<PublicKey>,
                            senderChecks: SenderChecks, receiveEntity: Delivery -> Outcome<Error>)
    requires suite.Base64Sound() && suite.SignatureSound() && suite.CodecSound() && wire.EncryptionSound() && wire.EncryptedSlapSound()
    requires fetchPublicKey(s) == Some(PublicHalf(key))
    ensures ReceivePrivate(suite, wire, wire.generateEncryptedSlap(s, key, e, PublicHalf(recipientKey)),
                           Some(recipientKey), recipientId, true, fetchPublicKey, senderChecks, receiveEntity)
         == ReceivePrivate(suite, wire, wire.encryptEnvelope(ME.Seal(suite, suite.pack(e), Some(s), key), PublicHalf(recipientKey)),
                           Some(recipientKey), recipientId, false, fetchPublicKey, senderChecks, receiveEntity)
  {
    PrivateDelivers(suite, wire, e, s, key, recipientKey, recipientId, fetchPublicKey, senderChecks, receiveEntity);
  }
}
