/**
 * The common part of the public and private receivers: check that the
 * sender may act for the entity, then hand the entity to the application.
 */
module AbstractReceiver {
  import opened Wrappers
  import opened Entities
  import opened Errors
  import MagicEnvelope

  /** The opaque identifier of the recipient of a private message. */
  type RecipientId = int

  /** A receiver: what it takes from the opened envelope, fixed at creation. */
  datatype Receiver = Receiver(entity: Entity, sender: DiasporaId, recipientId: Option<RecipientId>)

  /** One trigger of the application's `receive_entity` callback. */
  datatype Delivery = Delivery(entity: Entity, sender: DiasporaId, recipientId: Option<RecipientId>)

  /**
   * The observable result of receiving: the `receive_entity` trigger, if one
   * was made, and whether receiving returned normally or raised.
   */
  datatype Run = Run(dispatched: Option<Delivery>, outcome: Outcome<Error>)

  /** `initialize`: the payload and sender of the envelope, and the recipient. */
  function New(env: MagicEnvelope.Opened, recipientId: Option<RecipientId>): (r: Receiver)
    ensures r.entity == env.payload && r.sender == env.sender && r.recipientId == recipientId
  {
    Receiver(env.payload, env.sender, recipientId)
  }

  /**
   * `sender_valid?`: the sender check of the entity's type when it defines
   * one, otherwise the sender must be the entity's author.
   */
  predicate SenderValid(r: Receiver, senderChecks: SenderChecks) {
    match senderChecks(r.entity.kind)
    case Some(check) => check(r.entity, r.sender)
    case None => r.sender == r.entity.author
  }

  /** `validate`: passes exactly for a valid sender, else raises "invalid sender: <sender>". */
  function Validate(r: Receiver, senderChecks: SenderChecks): (o: Outcome<Error>)
    ensures o.Pass? <==> SenderValid(r, senderChecks)
    ensures o.Fail? ==> o.error == InvalidSender(r.sender)
    ensures o.Fail? ==> MessageOf(o.error) == Some("invalid sender: " + r.sender)
  {
    if SenderValid(r, senderChecks) then Pass else Fail(InvalidSender(r.sender))
  }

  /**
   * `receive`: validates, then triggers `receive_entity` with exactly the
   * entity, the sender and the recipient. Nothing is triggered for an
   * invalid sender, and an error raised by the callback is passed on unchanged.
   */
  function Receive(r: Receiver, senderChecks: SenderChecks, receiveEntity: Delivery -> Outcome<Error>): (run: Run)
    ensures run.dispatched.Some? <==> SenderValid(r, senderChecks)
    ensures run.dispatched.Some? ==>
      && run.dispatched.value == Delivery(r.entity, r.sender, r.recipientId)
      && run.outcome == receiveEntity(run.dispatched.value)
    ensures run.dispatched.None? ==> run.outcome == Fail(InvalidSender(r.sender))
  {
    match Validate(r, senderChecks)
    case Fail(e) => Run(None, Fail(e))
    case Pass =>
      var delivery := Delivery(r.entity, r.sender, r.recipientId);
      Run(Some(delivery), receiveEntity(delivery))
  }

  /**
   * Without an entity-specific sender check, receiving dispatches exactly
   * when the sender is the author; with one, that check alone decides.
   */
  lemma AuthorityDecidesDispatch(r: Receiver, senderChecks: SenderChecks, receiveEntity: Delivery -> Outcome<Error>)
    ensures senderChecks(r.entity.kind).None? ==>
      (Receive(r, senderChecks, receiveEntity).dispatched.Some? <==> r.sender == r.entity.author)
    ensures senderChecks(r.entity.kind).Some? ==>
      (Receive(r, senderChecks, receiveEntity).dispatched.Some? <==>
       senderChecks(r.entity.kind).value(r.entity, r.sender))
  {
  }

  /** For an invalid sender the callback plays no part: any two callbacks give the same run. */
  lemma InvalidSenderIgnoresCallback(r: Receiver, senderChecks: SenderChecks,
                                     cb1: Delivery -> Outcome<Error>, cb2: Delivery -> Outcome<Error>)
    requires !SenderValid(r, senderChecks)
    ensures Receive(r, senderChecks, cb1) == Receive(r, senderChecks, cb2) == Run(None, Fail(InvalidSender(r.sender)))
  {
  }
}
