# diaspora_federation: Magic Envelope and receivers, in Dafny

This project models the core of the diaspora* federation library:

- **The Salmon Magic Envelope** (`MagicEnvelope`). This is how an entity is serialized, base64url-encoded, signed and wrapped in an `me:env` element (`envelop`). `encrypt!` replaces the payload data with its AES encryption. `unenvelop` opens an element again, making its checks in a fixed order. The envelope object is a class whose payload data `Encrypt` overwrites in place. Building and opening an element are functions.
- **The receivers** (`AbstractReceiver`, `Receiver`):
  - the sender-authority check (`sender_valid?`) and the dispatch to the application's `receive_entity` callback;
  - the public and private entry points, in both the current and the legacy Slap wire formats.
- **The Conversation entity** (`Conversation`): its property schema, that is, the wire names and the defaults, and its validation. After the field rules pass, validation demands that every nested message has the conversation's author.
- **The Photo validator** (`PhotoValidator`): its rule table, evaluated by the declarative validation framework (`Validation`). The framework reports every failing (field, rule) pair.

Base64, RSA with SHA-256, AES, the entity XML codec and the wire codecs are not interpreted. They are fields of function type in `Primitives.Suite` and `Receiver.Wire`. One ghost predicate per fact states what the protocol relies on:

- `Base64Sound`: url-safe base64 decoding inverts encoding, and an encoding never contains `.`;
- `StrictSound`: the same round trip for strict base64;
- `SignaturesVerify` and `SignaturesBind` (together `SignatureSound`): a signature verifies under the signer's public key, and only under that key and for the signed subject;
- `CipherSound`: AES decryption under the same key and IV inverts encryption;
- `CodecSound`: unpacking a serialized entity gives it back;
- `XmlSound`, `EncryptionSound`, `SlapSound` and `EncryptedSlapSound` (in `Receiver.Wire`): each wire parser inverts its generator, and a legacy Slap from a sender whose key is found parses to the entity and the sender.

Each lemma requires only the facts its proof uses. An entity is a value: its type name, its author and its other properties as (name, wire string) pairs. The `sender_valid?` method that some entity types define is looked up by type name in a `SenderChecks` parameter. The `Witness` module gives concrete functions for every primitive and proves that they have all of these properties (`Witness.SuiteSound`, `Witness.WireSound`). So the lemmas that require the properties apply to real suites, and `Witness.WitnessRoundTrip` instantiates the round trip with them.

The callback registry becomes parameters:

- `fetchPublicKey`, the key lookup;
- `receiveEntity`, the dispatch.

The tests fix one part of the order of `unenvelop`'s checks. Tampering with a signed tag must report a tag error, not an invalid signature (magic_envelope_spec.rb:168-206), so the tag checks come before the signature check. The model uses this order:

1. the root is an `env` element;
2. `me:data` is present;
3. `me:sig` is present;
4. the encoding tag is supported;
5. the algorithm tag is supported;
6. the data type is supported;
7. the sender is known, either given explicitly or read from `key_id`;
8. the sender's key is found;
9. the signature verifies.

The rest of this order is a choice of the model, not fixed by the tests: `me:data` is checked before `me:sig`, and the sender and its key are resolved after the tag checks.

The two test files name the key-lookup callback differently:

- magic_envelope_spec.rb uses `fetch_public_key`;
- receiver_spec.rb uses `fetch_public_key_by_diaspora_id`.

The model has a single lookup parameter for both.

## Model

| member | source | states |
|---|---|---|
| MagicEnvelope.Seal | spec/lib/diaspora_federation/salmon/magic_envelope_spec.rb:48-71 | `envelop` builds an `env` element with exactly the children data, encoding, alg and sig. Its data type is application/xml. Its tags are the supported ones. `key_id` is present exactly when there is a sender. |
| MagicEnvelope.SealReadsBack | spec/lib/diaspora_federation/salmon/magic_envelope_spec.rb:8-15 | From a sealed element: the data decodes to the payload data, and `key_id` decodes to the sender. The subject recomputed from the element is the signed subject, and the signature verifies under the signer's public key (tests at lines 61-80). |
| MagicEnvelope.JoinInjective | spec/lib/diaspora_federation/salmon/magic_envelope_spec.rb:14 | Joining parts that do not contain the separator is injective. |
| MagicEnvelope.SignatureSubjectInjective | spec/lib/diaspora_federation/salmon/magic_envelope_spec.rb:8-15 | Two field lists of the same length with the same signature subject are equal. |
| MagicEnvelope.MagicEnvelope.constructor | spec/lib/diaspora_federation/salmon/magic_envelope_spec.rb:5-6 | The envelope keeps its payload and sender, and its payload data is the serialized entity. |
| MagicEnvelope.MagicEnvelope.Encrypt | spec/lib/diaspora_federation/salmon/magic_envelope_spec.rb:83-102 | `encrypt!` returns the key and the IV it used. It replaces the payload data with the strict base64 of its AES encryption under them. |
| MagicEnvelope.MagicEnvelope.Envelop | spec/lib/diaspora_federation/salmon/magic_envelope_spec.rb:44-49 | `envelop` seals the current payload data (encrypted or not) with the envelope's sender and the given key. |
| MagicEnvelope.Unenvelop | spec/lib/diaspora_federation/salmon/magic_envelope_spec.rb:105-206 | Opening succeeds exactly when the element is supported, a sender is known and the signature is authentic under the key found for that sender. It then yields that sender and the unpacked (decrypted) payload. |
| MagicEnvelope.FirstFailing | spec/lib/diaspora_federation/salmon/magic_envelope_spec.rb:127-206 | Returns the first failing check of a list. All earlier checks pass, and None means that every check passes. |
| MagicEnvelope.UnenvelopFollowsCheckOrder | spec/lib/diaspora_federation/salmon/magic_envelope_spec.rb:127-206 | `unenvelop` raises the error of the first failing check in the fixed order, and succeeds when none fails. |
| MagicEnvelope.UnenvelopSealed | spec/lib/diaspora_federation/salmon/magic_envelope_spec.rb:113-117 | A sealed element opens to its payload data and sender whenever the sender's key is found. The sender may be given explicitly or read from `key_id`, with or without cipher params. |
| MagicEnvelope.RoundTrip | spec/lib/diaspora_federation/salmon/magic_envelope_spec.rb:209-232 | `unenvelop(envelop(e))` returns `e` and its sender, with the sender given or taken from `key_id`. |
| MagicEnvelope.EncryptedRoundTrip | spec/lib/diaspora_federation/salmon/magic_envelope_spec.rb:215-225 | An encrypted and sealed payload opens to the original entity when the cipher params are passed back. |
| MagicEnvelope.DecryptOnTheFly | spec/lib/diaspora_federation/salmon/magic_envelope_spec.rb:215-225 | Takes an envelope without a sender through `encrypt!`, `envelop`, and `unenvelop` with the params and an explicit sender. The result is the original entity and that sender. |
| MagicEnvelope.WrongKeyFailsSignature | spec/lib/diaspora_federation/salmon/magic_envelope_spec.rb:141-150 | Opened with a sender whose key is not the signer's, a sealed element fails with InvalidSignature. |
| MagicEnvelope.TamperedDataFailsSignature | spec/lib/diaspora_federation/salmon/magic_envelope_spec.rb:73-80 | Data replaced by content that decodes to anything else fails with InvalidSignature. |
| MagicEnvelope.DamagedSealedEnvelopes | spec/lib/diaspora_federation/salmon/magic_envelope_spec.rb:127-250 | The errors for damaged envelopes: a wrong root gives InvalidEnvelope, a missing sig or data gives its own InvalidEnvelope, and a missing or invalid encoding, algorithm or data type gives its tag error. A removed `key_id` with no explicit sender gives InvalidEnvelope. |
| MagicEnvelope.UnknownSenderKey | spec/lib/diaspora_federation/salmon/magic_envelope_spec.rb:244-250 | A sealed element whose sender, read from `key_id`, has no key fails with SenderKeyNotFound. |
| Errors.EnvelopeMessages | spec/lib/diaspora_federation/salmon/magic_envelope_spec.rb:133-206 | Absent parts give "missing me:sig" and "missing me:data". Tags give "missing encoding" and "invalid encoding: v", and likewise for algorithm and data type. |
| Errors.TagMessagesDistinguishErrors | spec/lib/diaspora_federation/salmon/magic_envelope_spec.rb:160-206 | Two tag errors with the same message are the same error: the message tells the tag, missing from invalid, and the observed value. |
| AbstractReceiver.New | lib/diaspora_federation/federation/receiver/abstract_receiver.rb:11-15 | A receiver takes the payload and the sender of the opened envelope, and the recipient id. |
| AbstractReceiver.Validate | lib/diaspora_federation/federation/receiver/abstract_receiver.rb:35-45 | Passes exactly when the sender is valid for the entity. Otherwise it raises InvalidSender with the message "invalid sender: <sender>". |
| AbstractReceiver.Receive | lib/diaspora_federation/federation/receiver/abstract_receiver.rb:18-33 | `receive_entity` is triggered exactly when the sender is valid, with exactly (entity, sender, recipient id). Its outcome is passed on, and an invalid sender raises InvalidSender. |
| AbstractReceiver.AuthorityDecidesDispatch | lib/diaspora_federation/federation/receiver/abstract_receiver.rb:39-45 | For an entity type with its own `sender_valid?`, dispatch happens iff that check accepts the sender. For any other entity, it happens iff the sender is the author. |
| AbstractReceiver.InvalidSenderIgnoresCallback | lib/diaspora_federation/federation/receiver/abstract_receiver.rb:29-37 | For an invalid sender, every callback gives the same run: no dispatch and InvalidSender. |
| Receiver.ReceiveOpened | lib/diaspora_federation/federation/receiver/abstract_receiver.rb:17-23 | An opening error is raised before any dispatch. An opened envelope is received by a receiver built from it. |
| Receiver.ReceivePublic | spec/lib/diaspora_federation/federation/receiver_spec.rb:7-46 | A public message is dispatched with no recipient id. |
| Receiver.ReceivePrivate | spec/lib/diaspora_federation/federation/receiver_spec.rb:49-99 | Without a recipient key, it raises ArgumentError "no recipient key provided" and dispatches nothing. A private message is dispatched with the given recipient id. |
| Receiver.PublicDelivers | spec/lib/diaspora_federation/federation/receiver_spec.rb:10-27 | A public Magic Envelope reaches the receiver as the same entity and sender, with no recipient. When the sender may act for the entity, `receive_entity` gets exactly (entity, sender, nil), the arguments of abstract_receiver.rb:31. |
| Receiver.PublicLegacyAgrees | spec/lib/diaspora_federation/federation/receiver_spec.rb:29-46 | A legacy Slap gives the same run as the current format. |
| Receiver.PrivateDelivers | spec/lib/diaspora_federation/federation/receiver_spec.rb:52-70 | A Magic Envelope encrypted for the recipient reaches the receiver as the same entity and sender. When the sender may act for the entity, `receive_entity` gets exactly (entity, sender, recipient id), the arguments of abstract_receiver.rb:31. |
| Receiver.PrivateLegacyAgrees | spec/lib/diaspora_federation/federation/receiver_spec.rb:72-90 | A legacy EncryptedSlap gives the same run as the current format. |
| Witness.WitnessRoundTrip | spec/lib/diaspora_federation/salmon/magic_envelope_spec.rb:209-232 | With concrete primitives that have every required property, `unenvelop(envelop(e))` with the sender read from `key_id` returns `e` and its sender. |
| Conversation.WireNamesInvert | lib/diaspora_federation/entities/conversation.rb:11-34 | In a schema without duplicate names or wire names, the name-to-wire-name and wire-name-to-name lookups invert each other. |
| Conversation.ConversationWireNames | lib/diaspora_federation/entities/conversation.rb:11-34 | `author` travels as `diaspora_handle` and `participants` as `participant_handles`; the other properties keep their names. The schema is unambiguous, and every wire name maps back to its property. |
| Conversation.WithDefaults | lib/diaspora_federation/entities/conversation.rb:23-34 | Given values are kept. Each absent property with a default gets that default's value. Nothing else is added. |
| Conversation.MessagesDefaultToEmpty | lib/diaspora_federation/entities/conversation.rb:34 | A conversation built without messages has an empty message list. |
| Conversation.FirstForeign | lib/diaspora_federation/entities/conversation.rb:40-42 | Returns the first message not written by the author, or None exactly when all messages are written by the author. |
| Conversation.Validate | lib/diaspora_federation/entities/conversation.rb:38-43 | Field-rule failures are raised first. Otherwise it passes exactly when every message has the conversation's author. On failure it names the first mismatching message and the author. |
| Validation.RuleFailures | lib/diaspora_federation/validators/photo_validator.rb:9 | The failures of one field's rules are exactly the declared rules that do not hold for its value. |
| Validation.Failures | lib/diaspora_federation/validators/photo_validator.rb:4-23 | Every reported failure is a rule that does not hold, and every declared rule that does not hold is reported. |
| Validation.FailuresEmptyIff | lib/diaspora_federation/validators/photo_validator.rb:4-23 | A table reports no failure exactly when every declared rule of every field holds. |
| Validation.FailureIsDeclared | lib/diaspora_federation/validators/photo_validator.rb:4-23 | Every reported failure names a rule that the table declares for that field. |
| PhotoValidator.Validate | lib/diaspora_federation/validators/photo_validator.rb:4-23 | A photo passes exactly when it is valid. Otherwise a ValidationError carries all of its failures. |
| PhotoValidator.ValidMeetsExpected | lib/diaspora_federation/validators/photo_validator.rb:7-23 | A valid photo meets every per-field condition of the rule table. |
| PhotoValidator.ExpectedIsValid | lib/diaspora_federation/validators/photo_validator.rb:7-23 | A photo meeting every per-field condition is valid. |
| PhotoValidator.ValidIff | lib/diaspora_federation/validators/photo_validator.rb:7-23 | The per-field conditions: a guid; a non-empty diaspora* ID as author; a boolean `public`; non-empty remote path and name; a nilable status message guid; text of at most 65535 characters or none; numeric height and width. A photo is valid iff it meets all of them. |
| PhotoValidator.ValidGuidLength | lib/diaspora_federation/validators/photo_validator.rb:7-17 | Under the documented guid rule (a string of at least 16 characters), a valid photo's guid, and its status message guid when present, have at least 16 characters. |

## Left out

- ArgumentError for arguments of the wrong Ruby type (magic_envelope_spec.rb:24-30, 35-41, 119-125): typed parameters make these calls impossible.
- Logging on success and failure (abstract_receiver.rb:21, 32): it has no effect on results.
- Real base64, RSA, AES and XML: these are uninterpreted functions that satisfy the stated round-trip and binding facts. The `Witness` functions only show that those facts can hold together; they are not the real algorithms. Errors from malformed base64, unparsable XML or a failed decryption are not modelled.
- Entity classes and their property types: an entity is its type name, its author and its other properties as strings. The entity-specific `sender_valid?` methods are the `SenderChecks` parameter.
- receiver_spec.rb:17-19 and 60-62 expect `receive_entity` to be triggered with (entity, recipient id) only, and its `sender_id` is generated independently of the post's author. The model follows abstract_receiver.rb:31, which passes (entity, sender, recipient id).
- The random AES key and IV of `encrypt!` are parameters of `Encrypt`.
- `Time.now.utc`, the default of `created_at`, is the `now` parameter.
- The text of the nested-author error ("nested #{message} has different author"): `Entity#to_s` is not part of this model. The error carries the message and the author instead.
- The implementations of the `diaspora_id`, `guid`, `boolean` and `numeric` rules are given predicates. The documented guid requirement is stated as `Validation.Documented`.
- Conversation.Validate: the field rules of the Conversation validator are not part of this model. Their failures are an input.
- Receiver.PublicDelivers: dispatch is stated only for a sender that may act for the entity. The test's factory post and its author are not part of this model.
- Receiver.PrivateDelivers: dispatch is stated only for a sender that may act for the entity, for the same reason.
- The Slap and EncryptedSlap codecs and the hybrid envelope encryption are uninterpreted `Wire` functions. Their parse-of-generate facts are the `Receiver.Wire` predicates `XmlSound`, `EncryptionSound`, `SlapSound` and `EncryptedSlapSound`.
- How an envelope without a sender is sealed (no `key_id`) is not shown by the code. The model omits `key_id` in that case.
- The lazily computed payload data of the envelope is computed in the constructor.
- The Magic Envelope's behaviour as "a MagicEnvelope instance" (shared examples, magic_envelope_spec.rb:209-232): beyond the payload and the sender, those examples are not part of this model.
