/** The errors the envelope layer, the receiver and the validators raise. */
module Errors {
  import opened Wrappers
  import opened Entities
  import Validation

  /** Why an envelope is structurally invalid. */
  datatype EnvelopeDefect =
    | NotAnEnvelope                    // the root element is not `me:env`
    | MissingElement(xpath: string)    // `me:data` or `me:sig` is absent
    | MissingKeyId                     // no explicit sender and no `key_id` on `me:sig`

  /** Why an entity failed validation. */
  datatype Invalidity =
    | FailedRules(failures: seq<Validation.FieldFailure>)
    | NestedAuthorMismatch(nested: Message, author: DiasporaId)

  /**
   * The error taxonomy. A tag error carries the observed tag, `None` when
   * the tag is missing.
   */
  datatype Error =
    | ArgumentError(message: string)
    | InvalidEnvelope(defect: EnvelopeDefect)
    | InvalidSignature
    | SenderKeyNotFound
    | InvalidEncoding(encoding: Option<string>)
    | InvalidAlgorithm(algorithm: Option<string>)
    | InvalidDataType(dataType: Option<string>)
    | InvalidSender(sender: DiasporaId)
    | ValidationError(reason: Invalidity)
    | ApplicationError(message: string)  // raised by the application's own callback

  /** The "missing X" / "invalid X: v" message of a protocol-tag error. */
  function TagMessage(tag: string, observed: Option<string>): string {
    match observed
    case None => "missing " + tag
    case Some(v) => "invalid " + tag + ": " + v
  }

  /**
   * The message of an error, where the source fixes one; `None` where the
   * exception keeps its default message.
   */
  function MessageOf(e: Error): Option<string> {
    match e
    case ArgumentError(m) => Some(m)
    case InvalidEnvelope(MissingElement(xpath)) => Some("missing " + xpath)
    case InvalidEncoding(v) => Some(TagMessage("encoding", v))
    case InvalidAlgorithm(v) => Some(TagMessage("algorithm", v))
    case InvalidDataType(v) => Some(TagMessage("data type", v))
    case InvalidSender(s) => Some("invalid sender: " + s)
    case ApplicationError(m) => Some(m)
    case _ => None
  }

  /** The messages the envelope errors carry: "missing X" for an absent part, "invalid X: v" for a wrong tag. */
  lemma EnvelopeMessages(v: string)
    ensures MessageOf(InvalidEnvelope(MissingElement("me:sig"))) == Some("missing me:sig")
    ensures MessageOf(InvalidEnvelope(MissingElement("me:data"))) == Some("missing me:data")
    ensures MessageOf(InvalidEncoding(None)) == Some("missing encoding")
    ensures MessageOf(InvalidEncoding(Some(v))) == Some("invalid encoding: " + v)
    ensures MessageOf(InvalidAlgorithm(None)) == Some("missing algorithm")
    ensures MessageOf(InvalidAlgorithm(Some(v))) == Some("invalid algorithm: " + v)
    ensures MessageOf(InvalidDataType(None)) == Some("missing data type")
    ensures MessageOf(InvalidDataType(Some(v))) == Some("invalid data type: " + v)
  {
    assert "missing " + "me:sig" == "missing me:sig";
    assert "missing " + "me:data" == "missing me:data";
    assert "missing " + "encoding" == "missing encoding";
    assert "invalid " + "encoding" + ": " + v == "invalid encoding: " + v;
    assert "missing " + "algorithm" == "missing algorithm";
    assert "invalid " + "algorithm" + ": " + v == "invalid algorithm: " + v;
    assert "missing " + "data type" == "missing data type";
    assert "invalid " + "data type" + ": " + v == "invalid data type: " + v;
  }

  predicate IsTagError(e: Error) {
    e.InvalidEncoding? || e.InvalidAlgorithm? || e.InvalidDataType?
  }

  /** Two strings that share a prefix are equal exactly when their suffixes are. */
  lemma SamePrefixCancels(p: string, x: string, y: string)
    requires p + x == p + y
    ensures x == y
  {
    assert x == (p + x)[|p|..];
    assert y == (p + y)[|p|..];
  }

  /**
   * The message of a tag error names the tag, tells "missing" from
   * "invalid", and gives back the observed value: different tag errors never
   * share a message.
   */
  lemma {:induction false} TagMessagesDistinguishErrors(e1: Error, e2: Error)
    requires IsTagError(e1) && IsTagError(e2)
    requires MessageOf(e1) == MessageOf(e2)
    ensures e1 == e2
  {
    var m := MessageOf(e1).value;
    var t1 := if e1.InvalidEncoding? then "encoding" else if e1.InvalidAlgorithm? then "algorithm" else "data type";
    var t2 := if e2.InvalidEncoding? then "encoding" else if e2.InvalidAlgorithm? then "algorithm" else "data type";
    var o1 := if e1.InvalidEncoding? then e1.encoding else if e1.InvalidAlgorithm? then e1.algorithm else e1.dataType;
    var o2 := if e2.InvalidEncoding? then e2.encoding else if e2.InvalidAlgorithm? then e2.algorithm else e2.dataType;
    assert m == TagMessage(t1, o1) == TagMessage(t2, o2);
    // "missing ..." and "invalid ..." differ in their first letter.
    assert m[0] == (if o1.None? then 'm' else 'i');
    assert m[0] == (if o2.None? then 'm' else 'i');
    // The tag name starts at index 8 in both forms and its first letter is distinct per tag.
    assert m[8] == t1[0] && m[8] == t2[0];
    assert t1 == t2;
    if o1.Some? {
      SamePrefixCancels("invalid " + t1 + ": ", o1.value, o2.value);
    }
  }
}
