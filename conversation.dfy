/**
 * The Conversation entity: its property schema (wire names and defaults)
 * and its validation, which after the field rules demands that every
 * nested message carries the conversation's author.
 */
module Conversation {
  import opened Wrappers
  import opened Entities
  import opened Errors
  import Validation

  // ---------------------------------------------------------------------
  // The schema

  /** A declared default: none, the current time, or an empty list. */
  datatype Default = NoDefault | CurrentTime | EmptyList

  /** One `property`/`entity` declaration: its name, its `xml_name` if any, its default. */
  datatype Property = Property(name: string, xmlName: Option<string>, default: Default)

  /** The declarations of the Conversation entity, in order. */
  const Schema: seq<Property> := [
    Property("author", Some("diaspora_handle"), NoDefault),
    Property("guid", None, NoDefault),
    Property("subject", None, NoDefault),
    Property("created_at", None, CurrentTime),
    Property("participants", Some("participant_handles"), NoDefault),
    Property("messages", None, EmptyList)
  ]

  /** The name a property has on the wire: its `xml_name`, else its own name. */
  function WireName(p: Property): string {
    match p.xmlName
    case Some(n) => n
    case None => p.name
  }

  /** No two properties share a name, and no two share a wire name. */
  predicate Unambiguous(props: seq<Property>) {
    forall i, j :: 0 <= i < j < |props| ==>
      props[i].name != props[j].name && WireName(props[i]) != WireName(props[j])
  }

  /** The wire name of the property called `name`. */
  function WireNameOf(props: seq<Property>, name: string): Option<string> {
    if props == [] then None
    else if props[0].name == name then Some(WireName(props[0]))
    else WireNameOf(props[1..], name)
  }

  /** The property that a wire name stands for. */
  function NameOfWire(props: seq<Property>, wire: string): Option<string> {
    if props == [] then None
    else if WireName(props[0]) == wire then Some(props[0].name)
    else NameOfWire(props[1..], wire)
  }

  /**
   * In an unambiguous schema the two lookups are inverse: every property is
   * found under its wire name, and its wire name under its name.
   */
  lemma {:induction false} WireNamesInvert(props: seq<Property>, i: nat)
    requires Unambiguous(props)
    requires i < |props|
    ensures WireNameOf(props, props[i].name) == Some(WireName(props[i]))
    ensures NameOfWire(props, WireName(props[i])) == Some(props[i].name)
  {
    if i > 0 {
      assert props[1..][i - 1] == props[i];
      WireNamesInvert(props[1..], i - 1);
    }
  }

  /**
   * `author` travels as `diaspora_handle` and `participants` as
   * `participant_handles`; every other property keeps its own name, and a
   * wire name maps back to its property.
   */
  lemma ConversationWireNames()
    ensures Unambiguous(Schema)
    ensures WireNameOf(Schema, "author") == Some("diaspora_handle")
    ensures WireNameOf(Schema, "participants") == Some("participant_handles")
    ensures WireNameOf(Schema, "guid") == Some("guid")
    ensures WireNameOf(Schema, "subject") == Some("subject")
    ensures WireNameOf(Schema, "created_at") == Some("created_at")
    ensures WireNameOf(Schema, "messages") == Some("messages")
    ensures forall i :: 0 <= i < |Schema| ==> NameOfWire(Schema, WireName(Schema[i])) == Some(Schema[i].name)
  {
    forall i | 0 <= i < |Schema|
      ensures WireNameOf(Schema, Schema[i].name) == Some(WireName(Schema[i]))
      ensures NameOfWire(Schema, WireName(Schema[i])) == Some(Schema[i].name)
    {
      WireNamesInvert(Schema, i);
    }
    assert Schema[0].name == "author" && Schema[1].name == "guid" && Schema[2].name == "subject";
    assert Schema[3].name == "created_at" && Schema[4].name == "participants" && Schema[5].name == "messages";
  }

  /** A property value as given to the constructor. */
  datatype PropValue = Text(text: string) | Time(seconds: int) | Messages(messages: seq<Message>)

  /** The value a default stands for at time `now`. */
  function DefaultValue(d: Default, now: int): Option<PropValue> {
    match d
    case NoDefault => None
    case CurrentTime => Some(Time(now))
    case EmptyList => Some(Messages([]))
  }

  /**
   * The constructor's treatment of absent properties: given values are kept,
   * each absent property with a default gets it, and nothing else is added.
   */
  function WithDefaults(props: seq<Property>, given: map<string, PropValue>, now: int): (r: map<string, PropValue>)
    requires Unambiguous(props)
    ensures forall k :: k in given ==> k in r && r[k] == given[k]
    ensures forall i :: 0 <= i < |props| && props[i].name !in given && props[i].default != NoDefault ==>
      props[i].name in r && Some(r[props[i].name]) == DefaultValue(props[i].default, now)
    ensures forall k :: k in r && k !in given ==>
      exists i :: 0 <= i < |props| && props[i].name == k && props[i].default != NoDefault
  {
    if props == [] then given
    else
      var rest := WithDefaults(props[1..], given, now);
      assert forall i :: 1 <= i < |props| ==> props[i] == props[1..][i - 1];
      var p := props[0];
      if p.name in given || p.default == NoDefault then rest
      else rest[p.name := DefaultValue(p.default, now).value]
  }

  /** A conversation built without messages has an empty message list. */
  lemma MessagesDefaultToEmpty(given: map<string, PropValue>, now: int)
    requires "messages" !in given
    ensures Unambiguous(Schema)
    ensures var r := WithDefaults(Schema, given, now); "messages" in r && r["messages"] == Messages([])
  {
    assert Schema[5].name == "messages" && Schema[5].default == EmptyList;
  }

  // ---------------------------------------------------------------------
  // Validation

  /** A conversation entity, with its nested messages. */
  datatype Conversation = Conversation(
    author: DiasporaId,
    guid: string,
    subject: string,
    createdAt: int,
    participants: string,
    messages: seq<Message>)

  /** The position of the first message not written by `author`, if any. */
  function FirstForeign(messages: seq<Message>, author: DiasporaId): (r: Option<nat>)
    ensures r.None? <==> forall i :: 0 <= i < |messages| ==> messages[i].author == author
    ensures r.Some? ==>
      && r.value < |messages|
      && messages[r.value].author != author
      && forall i :: 0 <= i < r.value ==> messages[i].author == author
  {
    if messages == [] then None
    else if messages[0].author != author then Some(0)
    else
      match FirstForeign(messages[1..], author)
      case None => None
      case Some(i) => Some(i + 1)
  }

  /**
   * `validate`: the field rules run first and their failures are raised as
   * they are; then the first message whose author is not the conversation's
   * raises an error naming that message and the conversation's author; a
   * conversation whose messages all share its author (none at all included)
   * passes.
   */
  function Validate(c: Conversation, fieldFailures: seq<Validation.FieldFailure>): (o: Outcome<Error>)
    ensures fieldFailures != [] ==> o == Fail(ValidationError(FailedRules(fieldFailures)))
    ensures fieldFailures == [] ==>
      (o.Pass? <==> forall i :: 0 <= i < |c.messages| ==> c.messages[i].author == c.author)
    ensures fieldFailures == [] && o.Fail? ==>
      exists i :: 0 <= i < |c.messages|
        && o.error == ValidationError(NestedAuthorMismatch(c.messages[i], c.author))
        && c.messages[i].author != c.author
        && forall j :: 0 <= j < i ==> c.messages[j].author == c.author
  {
    if fieldFailures != [] then Fail(ValidationError(FailedRules(fieldFailures)))
    else
      match FirstForeign(c.messages, c.author)
      case None => Pass
      case Some(i) => Fail(ValidationError(NestedAuthorMismatch(c.messages[i], c.author)))
  }
}
