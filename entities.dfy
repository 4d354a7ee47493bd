/** The entities that travel inside envelopes, as far as the envelope and receiver layers look at them. */
module Entities {
  import opened Wrappers

  /** A diaspora* ID (user@host), the identity of senders and authors. */
  type DiasporaId = string

  /**
   * An entity as the receiver sees it: its type name, its author, and its
   * other properties (guid, raw_message, public, ...) as (name, wire string)
   * pairs in declaration order.
   */
  datatype Entity = Entity(
    kind: string,
    author: DiasporaId,
    properties: seq<(string, string)>)

  /**
   * The `sender_valid?` methods of the entity types that define one, looked
   * up by type name; `None` for a type without its own sender check.
   */
  type SenderChecks = string -> Option<(Entity, DiasporaId) -> bool>

  /** A message nested in a conversation; only its guid and author matter here. */
  datatype Message = Message(guid: string, author: DiasporaId)
}
