# indy-plenum message layer, client authentication and monitor strategy in Dafny

This project models the message layer of indy-plenum, the Plenum
Byzantine-fault-tolerant ledger node. It covers four parts.

- **The schema-validation engine** of `MessageBase`, together with the
  message tables it is applied to: signed messages, client requests,
  node messages, replies, request metadata and batches. A message object
  is an `Instance` value: its class plus an ordered list of attributes.
  A wire dict is an ordered list of `(key, value)` pairs, read with
  `Lookup` and assigned with `Put`, as a Python dict behaves.
  - `validate_fields_with_schema` and `validate` are recursive functions
    over the nested values.
  - `to_dict`, `init_from_dict` and `__get_list_value` are methods with
    loops. Each is proved equal to a specification function, and the
    properties are proved about that function.
  - The field validators are one abstract parameter: given a validator
    and a value, it returns a reason or nothing.
  - `init_from_dict(to_dict())` gives back the same fields for messages
    with distinct names, all attributes set and no list of messages. Two
    tables outside that case (`Signature`, `ReplyResult`) are shown not
    to round-trip.
- **The recursive bisection batcher** of `BatchedMessageHandler`. It is
  generic over the message length, the batch maker and the "under limit"
  test. The model proves:
  - its failure cases and the depth bound (at most 2^8 = 256 batches);
  - that the batches cover the input exactly and in order, each one
    under the limit.
- **Threshold signature authentication.**
  - `NaclAuthNr.authenticate` is a loop with early exit and its error
    outcomes.
  - `SimpleAuthNr` keeps a client table.
  - `MessageAuthenticator` keeps an ordered list of authenticators.
  - `MessageFactory` registers message classes under
    `(typename, version)`.
  Base58 decoding, Ed25519 verification and the uncommitted-identity
  lookup are parameters.
- **`AccumulatingMonitorStrategy`.** A class with ordered-request
  counters per protocol instance and an alert latch.

Constants from modules that are not part of this model (wire names, type
names) are strings holding the constant's own name. For example, the
wire name `f.INST_ID.nm` is the string `"INST_ID"`. Configuration limits
such as `ALIAS_FIELD_LIMIT` are symbolic.

Python exceptions are modelled as values.
- A raised error is the `Failure` of a `Result` or the `Fail` of an
  `Outcome`.
- `init_from_dict` returns the partly updated instance together with the
  error. This keeps the attributes it had already set when the exception
  was raised.

Where a table's shape makes the engine fail, the model fails the same
way:
- `schema[2]` on a pair-shaped item raises an index error;
- unpacking a pair into three names raises an unpack error;
- `getattr` of an attribute the constructor never set raises
  `AttributeError`.

## Model

| member | source | states |
|---|---|---|
| MessageBaseProps.ValidateFieldsOrder | plenum/common/messages/message_base.py:10-39 | A non-dict is rejected with the invalid-type error before anything else. Otherwise, a missing required field gives one missed-fields error naming every absent required wire name. Otherwise, validation passes exactly when every entry is accepted. A failure is the outcome of the first entry, in dict order, that is not accepted. |
| MessageBase.ValidateFieldsWithSchema | plenum/common/messages/message_base.py:10-39 | A pass means the value is a dict and every required wire name of the schema is among its keys. |
| MessageBaseProps.EntryOutcomeOrder | plenum/common/messages/message_base.py:24-39 | One entry's outcome, in order: an unknown key fails only under a strict schema. A non-empty validator reason fails with that reason, the key and the value. A nested message is validated recursively. A list fails with the failure of one of its message items. An entry is accepted exactly when none of these fails. |
| MessageBaseProps.CheckEntriesFirstFailure | plenum/common/messages/message_base.py:24-31 | The entry loop passes iff every entry is accepted. Otherwise it returns the first rejected entry's outcome, and all earlier entries were accepted. |
| MessageBaseProps.ValidateItemsFirstFailure | plenum/common/messages/message_base.py:36-39 | The items of a sequence pass iff every `MessageBase` item validates. Otherwise the result is the failure of the first item that does not. |
| MessageBaseProps.StrictPassMeansKnownKeys | plenum/common/messages/message_base.py:24-27 | Under a strict schema, a dict that validates has only keys from the schema. |
| MessageBaseProps.LenientIgnoresUnknownKeys | plenum/common/messages/message_base.py:24-27 | Under a non-strict schema, validation gives the same outcome as for the dict with its unknown keys removed. |
| MessageBaseProps.KnownEntries | plenum/common/messages/message_base.py:24-27 | The entries kept for a lenient schema all have schema keys. |
| MessageBaseProps.KnownEntriesKeys | plenum/common/messages/message_base.py:24-27 | Filtering the unknown keys out keeps every schema key the dict had, and adds none. |
| MessageBase.ValidateMessage | plenum/common/messages/message_base.py:41-42 | The default `validate_message` hook accepts every dict. |
| MessageBaseProps.SchemaDictFromSpec | plenum/common/messages/message_base.py:74-79 | Building the validator dict succeeds iff every remaining item is a triple. Its keys are the wire names. Under a repeated wire name, the last item with that name wins. |
| MessageBase.ValidatorSchema | plenum/common/messages/message_base.py:74-79 | Succeeds iff every schema item is a `(field, wire, validator)` triple. Otherwise it raises the unpacking error of the class. |
| MessageBaseProps.ValidatorSchemaShape | plenum/common/messages/message_base.py:74-79 | `validator_schema` succeeds iff the schema is all triples; a pair raises the index error. Its keys are the wire names, and each maps to the validator of the last item with that name. |
| MessageBaseProps.AsDictFromSucceeds | plenum/common/messages/message_base.py:81-86 | The `_as_dict` comprehension succeeds iff every schema attribute is set on the instance. Otherwise it fails with a missing attribute. |
| MessageBaseProps.AsDictFromKeys | plenum/common/messages/message_base.py:81-86 | The keys of `_as_dict` are the accumulator's keys plus the remaining schema keys. |
| MessageBaseProps.AsDictFromLookup | plenum/common/messages/message_base.py:81-86 | Under each wire name, `_as_dict` holds the attribute of the last schema item with that name. |
| MessageBaseProps.AsDictFromUntouched | plenum/common/messages/message_base.py:81-86 | A key that no remaining schema item produces keeps its accumulated value. |
| MessageBase.AsDict | plenum/common/messages/message_base.py:81-86 | Every value of `_as_dict` is one of the instance's attribute values. |
| MessageBaseProps.AsDictShape | plenum/common/messages/message_base.py:81-86 | `_as_dict` succeeds iff every schema attribute is set. Its keys are exactly the schema's keys, and each wire name maps to the attribute of its last item. |
| MessageBaseProps.ValidateNoShapeErrors | plenum/common/messages/message_base.py:88-91 | `validate()` of an instance never reports an invalid type, missed fields or an unknown field, at any depth of nesting. |
| MessageBase.Validate | plenum/common/messages/message_base.py:88-91 | A pass means the class is a `MessageBase` with a schema of triples, and `_as_dict` succeeds on the instance. |
| MessageBaseProps.AsDictHasRequired | plenum/common/messages/message_base.py:88-90 | The dict that `validate()` checks misses no required field of its own schema. |
| MessageBaseProps.AsDictKeysKnown | plenum/common/messages/message_base.py:88-90 | Every key of the dict that `validate()` checks is known to its own schema. |
| MessageBaseProps.CheckEntriesNoShape | plenum/common/messages/message_base.py:24-39 | Entries whose keys are all known never produce a shape error. |
| MessageBaseProps.CheckEntryNoShape | plenum/common/messages/message_base.py:29-39 | A single known entry never produces a shape error. |
| MessageBaseProps.ValidateItemsNoShape | plenum/common/messages/message_base.py:36-39 | Validating the message items of a sequence never produces a shape error. |
| MessageBaseProps.PairSchemaNeverValidates | plenum/common/messages/message_base.py:74-91 | A `MessageBase` whose schema has a pair item never validates. It fails with a missing attribute or with the index error. |
| MessageBase.ToDict | plenum/common/messages/message_base.py:93-100 | The loop over the schema equals the specification of `to_dict`, including its recursion into nested messages. |
| MessageBaseProps.ToDictFromKeys | plenum/common/messages/message_base.py:93-100 | The keys of `to_dict` are the accumulator's keys plus the remaining schema keys. |
| MessageBaseProps.ToDictFromLookup | plenum/common/messages/message_base.py:93-100 | Under each wire name, `to_dict` stores the attribute of the last item with that name. A nested message is converted by `to_dict`; anything else, lists included, is stored as it is. |
| MessageBaseProps.ToDictFromUntouched | plenum/common/messages/message_base.py:93-100 | A key that no remaining schema item produces keeps its accumulated value. |
| MessageBaseProps.ToDictShape | plenum/common/messages/message_base.py:93-100 | A successful `to_dict` has exactly the schema's keys. Each holds its last attribute, converted if it is a message. |
| MessageBaseProps.ToDictFromAsDict | plenum/common/messages/message_base.py:81-100 | When no remaining attribute is a message, `to_dict`'s loop builds the same dict as the `_as_dict` comprehension. |
| MessageBaseProps.ToDictWithoutNestedMessages | plenum/common/messages/message_base.py:81-100 | With no nested message attribute, `to_dict()` equals `_as_dict`. |
| MessageBase.ToDictSpec | plenum/common/messages/message_base.py:93-100 | A success means the instance is a `MessageBase` and every schema attribute is set. A failure is a missing attribute or a missing method. |
| MessageBase.InitFromDict | plenum/common/messages/message_base.py:102-111 | The loop equals the specification of `init_from_dict`, including the partly updated instance left when an exception is raised. |
| MessageBaseProps.InitFromFrame | plenum/common/messages/message_base.py:102-111 | `init_from_dict` keeps the class. It changes no attribute that a remaining item does not set from the input. It fails if a remaining item is not a triple. |
| MessageBaseProps.InitFromSets | plenum/common/messages/message_base.py:102-111 | After a successful pass, each attribute set from the input holds the converted value of the last item that sets it. |
| MessageBaseProps.InitFromDictEffect | plenum/common/messages/message_base.py:102-111 | `init_from_dict` sets only attributes whose wire names are in the input and leaves every other one unchanged. It fails on a pair-shaped schema. After success, each set attribute holds its converted input value. |
| MessageBase.InitFromDictSpec | plenum/common/messages/message_base.py:102-111 | The instance keeps its class. Any error is one that `init_from_dict` can raise. A class that is not a `MessageBase`, or whose schema is not all triples, always raises. |
| MessageBaseProps.InitFromDictSetsLast | plenum/common/messages/message_base.py:102-111 | After a successful call, the attribute of the last schema item that sets it holds the converted wire value. |
| MessageBase.GetMsgValue | plenum/common/messages/message_base.py:113-117 | `__get_msg_value` equals its specification: a fresh instance of the field's class, initialised from the input. |
| MessageBaseProps.MsgValueFresh | plenum/common/messages/message_base.py:113-117 | The converted value is a message of exactly the field's class. Every attribute the input does not set has its constructor default. |
| MessageBase.MsgValue | plenum/common/messages/message_base.py:113-117 | A success is a message of the field's class, which is a `MessageBase`. Any failure is one that `init_from_dict` can raise. |
| MessageBase.GetListValue | plenum/common/messages/message_base.py:119-128 | `__get_list_value` equals its specification. |
| MessageBaseProps.MsgValuesFromSpec | plenum/common/messages/message_base.py:124-128 | The list loop appends one converted element per input element, in order, after what it had. A failure is the failure of one element's conversion. |
| MessageBaseProps.ListValueInOrder | plenum/common/messages/message_base.py:119-128 | An iterable of non-message fields is returned as it is. An iterable of messages becomes a list of the same length, each element converted in input order. A failure comes from one element. |
| MessageBase.ListValue | plenum/common/messages/message_base.py:119-128 | For an iterable of messages, a success turns a list into a list of the same length whose items are all messages of the inner class. A failure happens only for an iterable of messages, and is an error that `init_from_dict` can raise. |
| Wire.NewInstance | plenum/common/messages/message_base.py:113-115 | `cls()` makes an instance of `cls` whose constructor attributes are all `None` and which has no other attribute. |
| Wire.SetAttr | plenum/common/messages/message_base.py:111 | `setattr` changes the named attribute only. |
| Classes.ConstructStores | plenum/common/messages/signed_message.py:20-22 | A storing constructor sets each of its attributes to its argument and no other attribute. With all arguments `None` it equals the no-argument instance. |
| Classes.RequiredWiresAreRequired | plenum/common/messages/message_base.py:14-19 | For a triple schema with distinct wire names, the required names that validation checks are the wire names of the non-optional items. |
| BatchMessage.NewBatch | plenum/common/messages/batch_message.py:17-18 | `Batch(msgs)` stores exactly the given list as `messages` and sets nothing else. |
| BatchMessage.BatchDefault | plenum/common/messages/batch_message.py:10-18 | `Batch()` leaves `messages` as `None`. The typename is `BATCH` and the version is 0. |
| BatchMessage.BatchNeverValidates | plenum/common/messages/batch_message.py:13-15 | The pair-shaped schema makes `validate()` of any `Batch` fail, and makes `init_from_dict` fail with the unpack error. |
| Request.NewRequestMetadata | plenum/common/messages/request.py:17-19 | The constructor stores `frm` and `reqId`. |
| Request.RequestMetadataTable | plenum/common/messages/request.py:11-23 | `REQUEST_FRM` (a non-empty string) and `REQUEST_ID` (a non-negative number) are both required. The defaults are `None`. `Request` binds `RequestMetadata` as its metadata class. |
| SignedMessage.NewSignatureValue | plenum/common/messages/signed_message.py:20-22 | The constructor stores `frm` and `value`. |
| SignedMessage.NewSignature | plenum/common/messages/signed_message.py:34-37 | The constructor stores `type`, `values` and `threshold`. |
| SignedMessage.NewSignedMessage | plenum/common/messages/signed_message.py:49-62 | The constructor stores its four arguments unchanged. |
| SignedMessage.SignatureTables | plenum/common/messages/signed_message.py:14-37 | Both signature-value fields are required. The signature type is ed25519 or ed25519-multi. `values` is an iterable of `SignatureValue`. The threshold is optional and defaults to `None`. |
| SignedMessage.SignedMessageOptionality | plenum/common/messages/signed_message.py:51-57 | `serialization` and `msg` are optional; `msg_serialized` and `signature` are required. |
| ClientMessages.NymRequestDataRequired | plenum/common/messages/client_messages.py:19-27 | `NymRequestData` requires only `did`. |
| ClientMessages.NodeRequestDataRequired | plenum/common/messages/client_messages.py:52-63 | `NodeRequestData` requires exactly `alias` and `did`. |
| ClientMessages.NodeRequestServices | plenum/common/messages/client_messages.py:61 | `services` is an optional iterable whose elements may only be `VALIDATOR`. |
| ClientMessages.NodeRequestHaAllOrNone | plenum/common/messages/client_messages.py:79-84 | The HA check passes iff none or all four HA fields are present. A partial set fails with missed-fields naming exactly the absent ones. |
| ClientMessages.NodeRequestHaCheck | plenum/common/messages/client_messages.py:79-84 | Passes when none or all of the four HA fields are present. A failure names a non-empty set of missing HA fields. |
| ClientMessages.NodeRequestHaCheckNotCalled | plenum/common/messages/client_messages.py:79 | A dict with only `nodeIp` fails the HA check, yet `validate_message` accepts it: the check is named `_validate_message` and `validate()` never calls it. |
| ClientMessages.SignedWrappers | plenum/common/messages/client_messages.py:44-47 | Each signed wrapper shares its request's typename and has version 0. Because the wrapper sets `msg_cls` and not `msgCls`, its `msg` field validates a plain `Message`, not the request. |
| ClientMessages.GetTxnRequestDataIsNoMessageBase | plenum/common/messages/client_messages.py:103-107 | `GetTxnRequestData` requires `seqNo`. As a `MessageValidator` it has no `validate` and no `init_from_dict`. |
| NodeMessages.PairTablesArePairs | plenum/common/messages/node_messages.py:27-72 | The node message tables other than `OrderedData` and `PropagateData` are pair-shaped. |
| NodeMessages.NodeTableShapes | plenum/common/messages/node_messages.py:74-115 | `OrderedData` and `PropagateData` are triple-shaped. Every pair-shaped table fails `validate()` on its first pair. |
| NodeMessages.PrePrepareRequired | plenum/common/messages/node_messages.py:124-141 | Every `PrePrepare` field is required except the BLS multi-signature and the plugin fields. |
| NodeMessages.PrePrepareOptional | plenum/common/messages/node_messages.py:136-140 | Exactly the BLS multi-signature and the plugin fields are optional. |
| NodeMessages.PrePrepareNullable | plenum/common/messages/node_messages.py:133-140 | The state root, the txn root, the BLS multi-signature and the plugin fields are nullable. |
| NodeMessages.CommitFlags | plenum/common/messages/node_messages.py:158-169 | In `Commit`, the BLS signature is optional but not nullable, and the plugin fields are optional and nullable. |
| NodeMessages.LedgerStatusFlags | plenum/common/messages/node_messages.py:220-234 | In `LedgerStatus`, every field is required, and `viewNo` and `ppSeqNo` are nullable. |
| NodeMessages.NodeTableFields | plenum/common/messages/node_messages.py:261-334 | `MessageReq` allows exactly the five listed types, and `MessageRep` reuses the same set. The `ViewChangeDone` name is nullable. The `CatchupRep` consistency proof is an iterable of 32-byte base58 values. |
| NodeMessages.ObservedDataHook | plenum/common/messages/node_messages.py:370-394 | The hook accepts a `BatchCommitted` instance or a dict that `BatchCommitted(**msg)` accepts, and raises invalid-field for anything else. `validate()` of the pair-shaped `ObservedData` fails before the hook. |
| NodeMessages.ObservedDataValidateMessage | plenum/common/messages/node_messages.py:383-394 | A missing `msg` fails with the key-missing error. A pass means `msg` is an empty dict or a `BatchCommitted` message. |
| Reply.NewStateMetadata | plenum/common/messages/reply.py:32-36 | The `StateMetadata` constructor sets `ledgerId`, `rootHash` and `size`, but not the schema's `timestamp` and `poolRootHash`. |
| Reply.LedgerMetadataRequired | plenum/common/messages/reply.py:11-16 | `LedgerMetadata` requires `ledgerId`, `rootHash` and `size`. |
| Reply.StateMetadataConstructorMismatch | plenum/common/messages/reply.py:25-36 | A constructed `StateMetadata` fails both `validate()` and `to_dict()` with the missing `timestamp` attribute. |
| Reply.SignedStateBuildsNested | plenum/common/messages/reply.py:39-43 | After a successful `init_from_dict`, `ledgerMetadata` is a nested `LedgerMetadata` instance. |
| Reply.ReplyDataResultsInOrder | plenum/common/messages/reply.py:78-84 | `results` becomes a list of `ReplyResult` instances of the same length, each converted from the input element at the same position. |
| Reply.ReplyResultSchemaKeepsLast | plenum/common/messages/reply.py:67-73 | `validator_schema` has only `result` and `multiSignature`, and the latter holds the last item's validator. |
| Reply.ReplyResultDictKeepsLast | plenum/common/messages/reply.py:67-73 | `_as_dict` holds `auditProof`, the last of the three attributes, under `multiSignature`. |
| Reply.ReplyResultInitSetsAll | plenum/common/messages/reply.py:67-73 | `init_from_dict` sets all three attributes from the one `multiSignature` value. `stateProof` and `auditProof` hold it as given; `multiSignature` holds its conversion to `PoolMultiSignature`. |
| Reply.ReplyResultSetsProof | plenum/common/messages/reply.py:71-72 | After a successful `init_from_dict`, `stateProof` and `auditProof` each hold the value under the shared wire name `multiSignature`. |
| Reply.ReplyResultSetsMultiSignature | plenum/common/messages/reply.py:70 | After a successful `init_from_dict`, `multiSignature` holds a `PoolMultiSignature` built from the wire value. |
| Reply.ReplyResultConversions | plenum/common/messages/reply.py:69-72 | The value read for the last three schema items is the one under `multiSignature`. The two iterable fields store it unconverted. |
| Reply.PoolMultiSignatureWires | plenum/common/messages/reply.py:51-57 | The attribute `typename` is stored under `type`, and `frm` under `from`. |
| Reply.ReplyDeclaration | plenum/common/messages/reply.py:87-91 | `Reply` has typename `REPLY` and version 0, with `ReplyData` and `RequestMetadata` as its data and metadata classes. |
| RoundTrip.ToDictFromSucceeds | plenum/common/messages/message_base.py:93-100 | `to_dict`'s loop succeeds when every remaining attribute is set and every nested message converts. |
| RoundTrip.InitFromSucceeds | plenum/common/messages/message_base.py:102-111 | `init_from_dict`'s loop raises nothing when every value it reads converts. |
| RoundTrip.FieldRoundTrip | plenum/common/messages/message_base.py:93-128 | One field: converting the value `to_dict` stored for an encodable attribute succeeds and stands for that attribute. |
| RoundTrip.RoundTrip | plenum/common/messages/message_base.py:93-128 | `init_from_dict(to_dict())` on a fresh instance of a message with distinct wire and attribute names and encodable fields raises nothing, and gives back the same fields, nested messages rebuilt field for field. |
| RoundTrip.FlatIsEncodable | plenum/common/messages/message_base.py:93-111 | A message without nested messages, with distinct names and every attribute set, is encodable. |
| RoundTrip.SignedStateSchemasDistinct | plenum/common/messages/reply.py:11-43 | LedgerMetadata, StateMetadata and SignedState have distinct wire and attribute names. |
| RoundTrip.SignedStateEncodable | plenum/common/messages/reply.py:39-43 | A SignedState holding encodable ledger and state records is encodable. |
| RoundTrip.SignedStateRoundTrip | plenum/common/messages/reply.py:39-43 | A SignedState with both nested records fully set survives `to_dict` and `init_from_dict` field for field. |
| RoundTrip.MessageIsNoMapping | plenum/common/messages/message_base.py:113-117 | `__get_msg_value` handed a message object instead of a dict raises the not-a-mapping error of the class. |
| RoundTrip.SingletonListFails | plenum/common/messages/message_base.py:119-128 | `__get_list_value` on a one-element list fails with the element's failure. |
| RoundTrip.SignatureToDictKeepsList | plenum/common/messages/signed_message.py:25-32 | `to_dict` stores a Signature's `values` list as it is, message objects included. |
| RoundTrip.SignatureInitRejectsObjects | plenum/common/messages/signed_message.py:29-30 | `init_from_dict` on a fresh Signature raises not-a-mapping when `values` holds a SignatureValue object. |
| RoundTrip.SignatureValuesNotRestored | plenum/common/messages/signed_message.py:25-37 | So a Signature built by its constructor with one SignatureValue does not survive the round trip. |
| RoundTrip.ReplyResultLosesStateProof | plenum/common/messages/reply.py:67-73 | `to_dict` keeps only `auditProof` under the shared wire name, and after `init_from_dict` `stateProof` holds the old `auditProof`. |
| Batching.SplitCases | plenum/common/messages/batched_message_handler.py:69-110 | The five branches of `_split_messages_on_batches`. A step above 8 gives `None`. An over-limit total with an over-limit message gives `None`. An over-limit total otherwise splits without building a batch. A batch under the limit is the single result. One message whose batch is over the limit gives `None`. |
| Batching.SplitMessagesOnBatches | plenum/common/messages/batched_message_handler.py:69-110 | Past the step limit the result is `None`. A result that is not `None` holds at least one batch. |
| Batching.Split | plenum/common/messages/batched_message_handler.py:72-78 | A joined result holds at least two batches, one or more from each half. |
| Batching.SplitSound | plenum/common/messages/batched_message_handler.py:69-110 | A successful split started at step `s` has `s <= 8` and between 1 and 2^(8-s) batches. Some partition of the messages, in order, makes each batch, and each batch is under the limit. |
| Batching.SplitSoundHalves | plenum/common/messages/batched_message_handler.py:72-78 | Splitting at `len // 2` and joining succeeds only if both halves succeed. The joined result covers the messages in order, with at most 2^(9-d) batches. |
| Batching.SplitCovers | plenum/common/messages/batched_message_handler.py:69-110 | A successful split yields between 1 and 256 batches, which cover the input exactly and in order. |
| Batching.HandlerBatchesCover | plenum/common/messages/batched_message_handler.py:48-63 | With `Batch` as the batch maker, a successful split gives 1 to 256 `Batch` values. Each holds one part of the input, the parts in order concatenate to the input, and each batch's length passes the test. |
| Batching.MakesBatches | plenum/common/messages/batched_message_handler.py:40-60 | A list of at most one message is returned unchanged, and the caller's list is untouched. Otherwise the caller's list is cleared and the split's result is returned, `None` on failure. |
| Batching.DoProcessInputMsg | plenum/common/messages/batched_message_handler.py:29-38 | The loop equals the specification: a non-batch goes to the abstract `Handler.process`; a batch is validated, then each inner message is processed in order and the results concatenated. |
| Batching.ProcessAllAppend | plenum/common/messages/batched_message_handler.py:35-36 | Processing a concatenation of messages gives the concatenation of the results. |
| Batching.ProcessInputOutcome | plenum/common/messages/batched_message_handler.py:29-38 | A non-batch yields exactly the result of the abstract `Handler.process`, which stands in for the base method the source lacks. A `Batch` always fails at `msg.validate()`, because of its pair-shaped schema. |
| Batching.ProcessInputSpec | plenum/common/messages/batched_message_handler.py:29-38 | A batch is processed only when it validates. A batch that fails validation raises exactly the validation error. |
| ClientAuthn.AuthLoopOutcome | plenum/server/client_authn.py:75-96 | The verification loop from any point. Success returns exactly `threshold` identifiers: the verified signers of a prefix that ends on a verified signature. Running out raises insufficient-correct-signatures with the count found. An undecodable signature, a `None` verkey or an unknown identifier aborts with its own error. When every entry is usable, success holds iff 1 <= threshold <= the number of verified signers. |
| ClientAuthn.AuthLoop | plenum/server/client_authn.py:75-96 | A success returns exactly `t` identifiers that extend those already verified. Running out of signatures reports threshold `t` and at least as many correct ones as were verified. The loop never reports too few signatures. |
| ClientAuthn.AuthenticateSpec | plenum/server/client_authn.py:64-96 | A success holds the settled threshold of identifiers, at least one. The insufficient-correct error carries the settled threshold. Too few signatures is reported only for an explicit threshold above the signature count. |
| ClientAuthn.GetVerkey | plenum/server/client_authn.py:127-139 | Succeeds iff the identifier is a client or an uncommitted identity. A client's own verkey comes first. An unknown identifier raises with that identifier. |
| ClientAuthn.AuthenticateOutcome | plenum/server/client_authn.py:64-96 | Fewer signatures than a given threshold raise insufficient-signatures before any verification. With no threshold, all signatures must verify. Success returns `threshold` identifiers in iteration order. A threshold of 0 or below never succeeds. |
| ClientAuthn.CoreAuthNr.Authenticate | plenum/server/client_authn.py:64-96 | The loop with `break`/for-else equals the specification of `authenticate`. |
| ClientAuthn.CoreAuthNr.AddIdr | plenum/server/client_authn.py:118-139 | `addIdr` overwrites the identifier's entry. `getVerkey` then returns the new verkey for it, and the same as before for every other identifier. |
| ClientAuthn.CoreAuthNr.constructor | plenum/server/client_authn.py:142-164 | A new authenticator has no clients. Its write types are the pool and domain write types. Its query types are `GET_TXN` plus the pool and domain query types. |
| ClientAuthn.CoreAuthNr.IsQuery | plenum/server/client_authn.py:146-154 | A type is a query iff it is `GET_TXN` or a pool or domain query type. |
| ClientAuthn.CoreAuthNr.IsWrite | plenum/server/client_authn.py:143-158 | A type is a write iff it is a pool or domain write type. |
| MessageAuthentication.SignatureDictSigners | plenum/common/messages/message_authenticator.py:34 | The keys of the signature dict are exactly the signers of the signature values. |
| MessageAuthentication.SignatureDictKeepsLast | plenum/common/messages/message_authenticator.py:34 | A signer listed more than once maps to the value of its last occurrence. |
| MessageAuthentication.AuthenticateMatchesReference | plenum/common/messages/message_authenticator.py:22-47 | The fold over the authenticators equals a reference definition. Find the first authenticator that classifies the type as a query. If there is one, the result is the empty set, even when earlier writes failed. Otherwise, the first failing write authenticator's error propagates. Otherwise, the union of the identifiers from the write authenticators is the result, or no-authenticator-found when it is empty. A non-empty result means no authenticator treats the type as a query. |
| MessageAuthentication.AuthFoldMatches | plenum/common/messages/message_authenticator.py:36-47 | From any position before the first query authenticator, the fold agrees with the reference definition. |
| MessageAuthentication.WriteFailureSticks | plenum/common/messages/message_authenticator.py:40-43 | Once a write authenticator raises, later authenticators do not change the outcome. |
| MessageAuthentication.MessageAuthenticator.RegisterAuthenticator | plenum/common/messages/message_authenticator.py:19-20 | Registration appends at the end. A core authenticator, once present, stays the same. |
| MessageAuthentication.MessageAuthenticator.CoreAuthenticator | plenum/common/messages/message_authenticator.py:49-53 | The core authenticator is the first registered one. It is an error when none is registered. |
| MessageAuthentication.MessageAuthenticator.GetAuthnrByType | plenum/common/messages/message_authenticator.py:55-58 | Returns the first registered authenticator of the given class, or `None` when there is none. |
| MessageAuthentication.MessageAuthenticator.Authenticate | plenum/common/messages/message_authenticator.py:22-47 | The loop with its early return equals the fold over the registered authenticators. |
| MessageRegistry.FitsExactly | plenum/common/messages/message_factory.py:42-52 | A class fits exactly when it has a non-empty typename, it has a version, its `need_signature` is not `True`, and it subclasses `Message` or `SignedMessage`. |
| MessageRegistry.CheckObjFits | plenum/common/messages/message_factory.py:42-52 | A refusal is one of the four reasons. A class without a non-empty typename is refused for that reason first. |
| MessageRegistry.ClassesSpecShape | plenum/common/messages/message_factory.py:32-39 | A key is registered iff some fitting class has it. The registered class is the last fitting one with that key. |
| MessageRegistry.GetMessageClasses | plenum/common/messages/message_factory.py:32-39 | The loop over a module's classes builds exactly the class map of its specification. |
| MessageRegistry.MessageFactory.constructor | plenum/common/messages/message_factory.py:11-15 | The class map is that of the last module, which needs at least one registered class. |
| MessageRegistry.LoadingReplaces | plenum/common/messages/message_factory.py:11-15 | Loading the client module and then the node module leaves only the node module's classes. |
| MessageRegistry.MessageFactory.GetType | plenum/common/messages/message_factory.py:64-68 | Succeeds iff `(type, version)` is registered, and returns exactly that class. An unregistered hashable pair raises `MissingMsgType(type)`. |
| MessageRegistry.MessageFactory.GetInstance | plenum/common/messages/message_factory.py:53-61 | A missing or `None` type raises `MissingMsgType`. Otherwise the call succeeds exactly when `get_type` succeeds on the type and the version. A failure carries `get_type`'s error unchanged. A success is a fresh no-argument instance of the class `get_type` found, which is one of the registered classes. |
| MessageRegistry.RawVersion | plenum/common/messages/message_factory.py:55 | The version is the one the message carries when it has the key, and 0 otherwise. |
| MessageRegistry.MessageFactory.SetMessageClass | plenum/common/messages/message_factory.py:70-73 | A class that does not fit is refused with its reason, and the map is unchanged. A fitting class overwrites any earlier class under its key, and `get_type` then returns it. |
| MessageRegistry.NodeRegistry | plenum/common/messages/message_factory.py:76-78 | The node message module registers exactly `ORDERED` and `PROPAGATE`, both at version 0. |
| MessageRegistry.ClientRegistry | plenum/common/messages/client_messages.py:37-113 | The client module registers `GET_TXN` and the two signed wrappers. `NymRequest` and `NodeRequest` are refused because they need a signature. |
| Strategies.MaxOrdered | plenum/common/strategies.py:107 | The maximum over a range of instances is reached by one of them, and bounds the count of every one of them. |
| Strategies.IsDegraded | plenum/common/strategies.py:103-108 | The master is degraded iff there are at least two instances and some backup's count exceeds the master's by more than `txn_delta_k` times the rate. |
| Strategies.AlertAfter | plenum/common/strategies.py:84-90 | No alert remains iff the master is not degraded. A degraded update keeps the alert or starts it at now, and at a non-zero time always leaves a truthy alert. |
| Strategies.MasterDegraded | plenum/common/strategies.py:98-101 | Never degraded without an alert. With a non-negative timeout, a degraded master has an alert older than now. |
| Strategies.AlertPersists | plenum/common/strategies.py:84-90 | A running non-zero alert is kept by every later update while the master stays degraded. |
| Strategies.AlertKeepsFirst | plenum/common/strategies.py:84-90 | Starting without an alert, a run of degraded updates at non-zero times holds the time of the first update. |
| Strategies.DegradedAfterTimeout | plenum/common/strategies.py:84-101 | Over such a run, `is_master_degraded` holds iff more than `timeout` has passed since the run began. |
| Strategies.RecoveryClearsAlert | plenum/common/strategies.py:87-88 | An update at which the master is not degraded clears the alert, so `is_master_degraded` is false. |
| Strategies.ZeroAlertAmbiguous | plenum/common/strategies.py:89-101 | An alert at time 0 counts as running for `is_master_degraded` (the `None` test). It counts as absent for `update_time` (the falsy test), which restarts it at the next degraded update. |
| Strategies.AccumulatingMonitorStrategy.constructor | plenum/common/strategies.py:64-72 | A new strategy has no ordered requests and no alert, and starts at the given time. |
| Strategies.AccumulatingMonitorStrategy.AddInstance | plenum/common/strategies.py:74-75 | The instance count goes up by one, and nothing else changes. |
| Strategies.AccumulatingMonitorStrategy.RemoveInstance | plenum/common/strategies.py:77-78 | The instance count goes down by one, and nothing else changes. |
| Strategies.AccumulatingMonitorStrategy.Reset | plenum/common/strategies.py:80-82 | The alert is cleared and every count is 0. The instance count and the clock are kept. |
| Strategies.AccumulatingMonitorStrategy.UpdateTime | plenum/common/strategies.py:84-90 | The time is stored. Then the alert is cleared when the master is not degraded. It is set to now when the master is degraded and no truthy alert is running. Otherwise it is kept. |
| Strategies.AccumulatingMonitorStrategy.RequestOrdered | plenum/common/strategies.py:95-96 | The given instance's count goes up by one, and every other count stays. |
| Strategies.AccumulatingMonitorStrategy.IsMasterDegraded | plenum/common/strategies.py:98-101 | True iff an alert is set (by the `None` test) and the time since it exceeds the timeout. |

## Left out

- `plenum/common/messages/message.py` is an abandoned descriptor-based variant. It imports a name that `message_base.py` does not define. `Message`, `MessageData` and `MessageMetadata` appear only as class flags. `MessageData` is assumed to be a `MessageBase`.
- `plenum/common/messages/message_handler.py` (deserializing, instantiating through the factory, outer validation, signature verification) is not part of this model. Its `process_output_msg`, `_deserialize_inner` and `_validate_inner` do nothing.
- Batching.ProcessInputSpec: `MessageHandler` defines neither `_do_process_input_msg` nor `process_output_msgs`. The `super()` calls at `batched_message_handler.py:25`, `:31` and `:36` would raise `AttributeError` as written. The model replaces the missing base method with the abstract per-message function `Handler.process`, and leaves `process_output_msgs` out apart from `_makes_batches`.
- Serializers are not part of this model. Message and batch lengths are abstract functions.
- Module loading and introspection (`sys.modules`, `import_module`, `dir`) are left out. A module is a sequence of classes, in `dir` order.
- `NodeMessageFactory` passes a single string, which the constructor iterates character by character. The model takes the node message module as the one module loaded.
- The field validators of `plenum/common/messages/fields.py` are not part of this model. They are one abstract function from a validator and a value to an optional reason. A value that is not a list, under an iterable of messages, fails conversion with a not-iterable error; Python would iterate over a string's characters or a dict's keys.
- `MessageField._specific_validation` does nothing and is not modelled apart from the abstract validators.
- Base58 decoding, Ed25519 signature verification (RFC 8032) and `DomainRequestHandler.getNymDetails` are parameters. The last one is a map of uncommitted identities to verkeys; a falsy record there counts as absent.
- `Request.getDigest` (sha256 of the serialized dict) is left out.
- Logging, the `print` in `__check_obj_fits`, and the text of error messages are left out. Errors are constructors carrying the class name, field and value.
- Strategies: the median strategies and the rate estimator `EMAEventFrequencyEstimator` are floating-point library code. The rate is a `real` input to `update_time`, and `request_received` (which only feeds the estimator) is not modelled.
- Strategies: timestamps and the timeout are integers rather than floats. This keeps the falsy test of a zero alert.
- Strategies.IsDegraded: reading the `defaultdict` also inserts zero entries for the instances it reads. The model reads counts with a default of 0 and does not record those insertions, which no other method can observe.
- Batching.MakesBatches: the list returned when batching is skipped is the caller's own list. The model returns its contents, so aliasing is not captured.
- MessageRegistry.MessageFactory.GetType: a list or dict key raises Python's unhashable-type error. Other unhashable values are not distinguished.
- The `or set()` in `MessageAuthenticator.authenticate` treats a falsy result as empty. In the model every authenticator returns a list, which is used as a set.
- `SignedRequest` is the view of a signed message that `authenticate` reads. Extracting it from a wire message is left out.
- RoundTrip.RoundTrip: `init_from_dict(to_dict())` is proved only for messages with distinct wire and attribute names, every schema attribute set, and no list of messages. Outside that case the source does not round-trip. `to_dict` stores a list of messages unconverted, and `init_from_dict` then raises not-a-mapping on its items (RoundTrip.SignatureValuesNotRestored). A message field left `None` raises the same way. ReplyResult's shared wire name keeps only `auditProof` (RoundTrip.ReplyResultLosesStateProof).
- MessageAuthentication.MessageAuthenticator.RegisterAuthenticator: `register_authenticator` accepts any `ClientAuthNr`. The model registers only `CoreAuthNr` objects, so every registered authenticator answers as `NaclAuthNr.authenticate` does (`AuthenticateSpec` over its client table). Other authenticator classes are not modelled.
