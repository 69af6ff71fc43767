/** plenum/common/messages/node_messages.py: the node-to-node message
    tables. Most are (wire name, validator) pairs with a typename and no
    version; `OrderedData` and `PropagateData` are triple-shaped and back
    the two node messages `Ordered` and `Propagate`. */
module NodeMessages {
  import opened Wrappers
  import opened Wire
  import opened MessageBase
  import opened MessageBaseProps
  import opened Classes

  /** A (wire name, validator) pair. */
  function Item(wire: string, ft: FieldType, optional: bool := false, nullable: bool := false): SchemaItem
  {
    Pair(wire, Field(ft, optional, nullable))
  }

  /** A pair-shaped MessageBase table with a typename and no constructor. */
  function PairTable(name: string, typename: string, schema: seq<SchemaItem>): MsgClass
  {
    Record(name, schema, [], typename := Some(typename))
  }

  const BlacklistMsgCls := PairTable("BlacklistMsg", "BLACKLIST",
    [Item("SUSP_CODE", AnyValueField), Item("NODE_NAME", AnyValueField)])
  const RequestAckCls := PairTable("RequestAck", "REQACK",
    [Item("IDENTIFIER", AnyValueField), Item("REQ_ID", AnyValueField)])
  const RequestNackCls := PairTable("RequestNack", "REQNACK",
    [Item("IDENTIFIER", AnyValueField), Item("REQ_ID", AnyValueField), Item("REASON", AnyValueField)])
  const RejectCls := PairTable("Reject", "REJECT",
    [Item("IDENTIFIER", AnyValueField), Item("REQ_ID", AnyValueField), Item("REASON", AnyValueField)])
  const PoolLedgerTxnsCls := PairTable("PoolLedgerTxns", "POOL_LEDGER_TXNS", [Item("TXN", AnyValueField)])

  const PrePrepareCls := PairTable("PrePrepare", "PREPREPARE",
    [ Item("INST_ID", NonNegativeNumberField), Item("VIEW_NO", NonNegativeNumberField),
      Item("PP_SEQ_NO", NonNegativeNumberField), Item("PP_TIME", TimestampField),
      Item("REQ_IDR", IterableField(Field(RequestIdentifierField))), Item("DISCARDED", NonNegativeNumberField),
      Item("DIGEST", LimitedLengthStringField(DigestFieldLimit)), Item("LEDGER_ID", LedgerIdField),
      Item("STATE_ROOT", MerkleRootField, nullable := true), Item("TXN_ROOT", MerkleRootField, nullable := true),
      Item("BLS_MULTI_SIG", BlsMultiSignatureField, optional := true, nullable := true),
      Item("PLUGIN_FIELDS", AnyMapField, optional := true, nullable := true) ])

  const PrepareCls := PairTable("Prepare", "PREPARE",
    [ Item("INST_ID", NonNegativeNumberField), Item("VIEW_NO", NonNegativeNumberField),
      Item("PP_SEQ_NO", NonNegativeNumberField), Item("PP_TIME", TimestampField),
      Item("DIGEST", LimitedLengthStringField(DigestFieldLimit)),
      Item("STATE_ROOT", MerkleRootField, nullable := true), Item("TXN_ROOT", MerkleRootField, nullable := true),
      Item("PLUGIN_FIELDS", AnyMapField, optional := true, nullable := true) ])

  const CommitCls := PairTable("Commit", "COMMIT",
    [ Item("INST_ID", NonNegativeNumberField), Item("VIEW_NO", NonNegativeNumberField),
      Item("PP_SEQ_NO", NonNegativeNumberField),
      Item("BLS_SIG", LimitedLengthStringField(BlsSigLimit), optional := true),
      Item("PLUGIN_FIELDS", AnyMapField, optional := true, nullable := true) ])

  const CheckpointCls := PairTable("Checkpoint", "CHECKPOINT",
    [ Item("INST_ID", NonNegativeNumberField), Item("VIEW_NO", NonNegativeNumberField),
      Item("SEQ_NO_START", NonNegativeNumberField), Item("SEQ_NO_END", NonNegativeNumberField),
      Item("DIGEST", LimitedLengthStringField(DigestFieldLimit)) ])

  const ThreePCStateCls := PairTable("ThreePCState", "THREE_PC_STATE", [Item("INST_ID", NonNegativeNumberField)])

  const CheckpointStateCls := PairTable("CheckpointState", "CHECKPOINT_STATE",
    [ Item("SEQ_NO", AnyValueField), Item("DIGESTS", AnyValueField), Item("DIGEST", AnyValueField),
      Item("RECEIVED_DIGESTS", AnyValueField), Item("IS_STABLE", AnyValueField) ])

  /** The node-side `Reply` table (distinct from the client Reply message). */
  const NodeReplyCls := PairTable("Reply", "REPLY", [Item("RESULT", AnyValueField)])

  const InstanceChangeCls := PairTable("InstanceChange", "INSTANCE_CHANGE",
    [Item("VIEW_NO", NonNegativeNumberField), Item("REASON", NonNegativeNumberField)])

  const LedgerStatusCls := PairTable("LedgerStatus", "LEDGER_STATUS",
    [ Item("LEDGER_ID", LedgerIdField), Item("TXN_SEQ_NO", NonNegativeNumberField),
      Item("VIEW_NO", NonNegativeNumberField, nullable := true),
      Item("PP_SEQ_NO", NonNegativeNumberField, nullable := true),
      Item("MERKLE_ROOT", MerkleRootField) ])

  const ConsistencyProofCls := PairTable("ConsistencyProof", "CONSISTENCY_PROOF",
    [ Item("LEDGER_ID", LedgerIdField), Item("SEQ_NO_START", NonNegativeNumberField),
      Item("SEQ_NO_END", NonNegativeNumberField), Item("VIEW_NO", NonNegativeNumberField),
      Item("PP_SEQ_NO", NonNegativeNumberField), Item("OLD_MERKLE_ROOT", MerkleRootField),
      Item("NEW_MERKLE_ROOT", MerkleRootField),
      Item("HASHES", IterableField(Field(LimitedLengthStringField(HashFieldLimit)))) ])

  const CatchupReqCls := PairTable("CatchupReq", "CATCHUP_REQ",
    [ Item("LEDGER_ID", LedgerIdField), Item("SEQ_NO_START", NonNegativeNumberField),
      Item("SEQ_NO_END", NonNegativeNumberField), Item("CATCHUP_TILL", NonNegativeNumberField) ])

  const CatchupRepCls := PairTable("CatchupRep", "CATCHUP_REP",
    [ Item("LEDGER_ID", LedgerIdField), Item("TXNS", AnyValueField),
      Item("CONS_PROOF", IterableField(Field(Base58Field([32])))) ])

  const ViewChangeDoneCls := PairTable("ViewChangeDone", "VIEW_CHANGE_DONE",
    [ Item("VIEW_NO", NonNegativeNumberField),
      Item("NAME", LimitedLengthStringField(NameFieldLimit), nullable := true),
      Item("LEDGER_INFO", IterableField(Field(LedgerInfoField))) ])

  const CurrentStateCls := PairTable("CurrentState", "CURRENT_STATE",
    [Item("VIEW_NO", NonNegativeNumberField), Item("PRIMARY", IterableField(Field(AnyField)))])

  /** `MessageReq.allowed_types`, which `MessageRep` reuses. */
  const MessageReqAllowedTypes: set<string> :=
    {"LEDGER_STATUS", "CONSISTENCY_PROOF", "PREPREPARE", "PROPAGATE", "PREPARE"}

  const MessageReqCls := PairTable("MessageReq", "MESSAGE_REQUEST",
    [Item("MSG_TYPE", ChooseField(MessageReqAllowedTypes)), Item("PARAMS", AnyMapField)])

  const MessageRepCls := PairTable("MessageRep", "MESSAGE_RESPONSE",
    [Item("MSG_TYPE", ChooseField(MessageReqAllowedTypes)), Item("PARAMS", AnyMapField), Item("MSG", AnyField)])

  const BatchCommittedCls := PairTable("BatchCommitted", "BATCH_COMMITTED",
    [ Item("LEDGER_ID", LedgerIdField), Item("PP_TIME", TimestampField),
      Item("STATE_ROOT", MerkleRootField), Item("TXN_ROOT", MerkleRootField),
      Item("SEQ_NO_START", NonNegativeNumberField), Item("SEQ_NO_END", NonNegativeNumberField) ])

  /** `ObservedData.allowed_types`. */
  const ObservedDataAllowedTypes: set<string> := {"BATCH"}

  const ObservedDataCls := PairTable("ObservedData", "OBSERVED_DATA",
    [Item("MSG_TYPE", ChooseField(ObservedDataAllowedTypes)), Item("MSG", AnyValueField)])

  /** Every pair-shaped table of the module. */
  const PairTables: seq<MsgClass> :=
    [ BlacklistMsgCls, RequestAckCls, RequestNackCls, RejectCls, PoolLedgerTxnsCls, PrePrepareCls,
      PrepareCls, CommitCls, CheckpointCls, ThreePCStateCls, CheckpointStateCls, NodeReplyCls,
      InstanceChangeCls, LedgerStatusCls, ConsistencyProofCls, CatchupReqCls, CatchupRepCls,
      ViewChangeDoneCls, CurrentStateCls, MessageReqCls, MessageRepCls, BatchCommittedCls, ObservedDataCls ]

  const OrderedDataCls: MsgClass := Record("OrderedData",
    [ Triple("instId", "instId", Field(NonNegativeNumberField)),
      Triple("viewNo", "viewNo", Field(NonNegativeNumberField)),
      Triple("reqIdr", "reqIdr", Field(IterableField(Field(RequestIdentifierField)))),
      Triple("ppSeqNo", "ppSeqNo", Field(NonNegativeNumberField)),
      Triple("ppTime", "ppTime", Field(TimestampField)),
      Triple("ledgerId", "ledgerId", Field(LedgerIdField)),
      Triple("stateRootHash", "stateRootHash", Field(MerkleRootField, nullable := true)),
      Triple("txnRootHash", "txnRootHash", Field(MerkleRootField, nullable := true)) ],
    ["instId", "viewNo", "reqIdr", "ppSeqNo", "ppTime", "ledgerId", "stateRootHash", "txnRootHash"])

  const PropagateDataCls: MsgClass := Record("PropagateData",
    [ Triple("request", "request", Field(AnyMapField)),
      Triple("senderClient", "senderClient", Field(LimitedLengthStringField(SenderClientFieldLimit), nullable := true)) ],
    ["request", "senderClient"])

  /** `MessageMetadata`, the metadata class `NodeMessage` binds. */
  const MessageMetadataCls: MsgClass := Record("MessageMetadata", [], [])

  const OrderedDecl: MessageDecl :=
    MessageDecl(MessageSubclass("Ordered", Some("ORDERED"), Some(0), None), Some(OrderedDataCls), Some(MessageMetadataCls))

  const PropagateDecl: MessageDecl :=
    MessageDecl(MessageSubclass("Propagate", Some("PROPAGATE"), Some(0), None), Some(PropagateDataCls), Some(MessageMetadataCls))

  lemma PairTablesArePairs()
    ensures forall k :: 0 <= k < |PairTables| ==>
      PairTables[k].isMessageBase && |PairTables[k].schema| > 0 && PairTables[k].schema[0].Pair?
  {
  }

  /** The two data tables are triple-shaped and validate by their wire
      names; every pair-shaped table fails `validate()` on the first item
      it cannot unpack, whatever its attributes hold. */
  lemma NodeTableShapes(inst: Instance, fc: FieldCheck)
    ensures AllTriples(OrderedDataCls.schema) && AllTriples(PropagateDataCls.schema)
    ensures forall k :: 0 <= k < |PairTables| && inst.cls == PairTables[k] ==>
      Validate(inst, fc).Fail? &&
      (Validate(inst, fc).error == SchemaItemIndex(inst.cls.name) ||
       Validate(inst, fc).error.AttributeMissing?)
  {
    PairTablesArePairs();
    if inst.cls.isMessageBase && |inst.cls.schema| > 0 && inst.cls.schema[0].Pair? {
      PairSchemaNeverValidates(inst, fc);
    }
  }

  /** PrePrepare: everything is required except the BLS multi-signature and
      the plugin fields, which are optional and nullable. */
  lemma PrePrepareRequired()
    ensures RequiredWires(PrePrepareCls.schema) ==
      {"INST_ID", "VIEW_NO", "PP_SEQ_NO", "PP_TIME", "REQ_IDR", "DISCARDED", "DIGEST", "LEDGER_ID", "STATE_ROOT", "TXN_ROOT"}
  {
    var s := PrePrepareCls.schema;
    assert s[0].wire == "INST_ID" && s[1].wire == "VIEW_NO" && s[2].wire == "PP_SEQ_NO" && s[3].wire == "PP_TIME";
    assert s[4].wire == "REQ_IDR" && s[5].wire == "DISCARDED" && s[6].wire == "DIGEST" && s[7].wire == "LEDGER_ID";
    assert s[8].wire == "STATE_ROOT" && s[9].wire == "TXN_ROOT";
  }

  lemma PrePrepareOptional()
    ensures OptionalWires(PrePrepareCls.schema) == {"BLS_MULTI_SIG", "PLUGIN_FIELDS"}
  {
    var s := PrePrepareCls.schema;
    assert s[10].wire == "BLS_MULTI_SIG" && s[11].wire == "PLUGIN_FIELDS";
  }

  /** PrePrepare: the two roots and the two optional fields are nullable. */
  lemma PrePrepareNullable()
    ensures NullableWires(PrePrepareCls.schema) == {"STATE_ROOT", "TXN_ROOT", "BLS_MULTI_SIG", "PLUGIN_FIELDS"}
  {
    var s := PrePrepareCls.schema;
    assert s[8].wire == "STATE_ROOT" && s[9].wire == "TXN_ROOT" && s[10].wire == "BLS_MULTI_SIG" && s[11].wire == "PLUGIN_FIELDS";
  }

  /** Commit: the BLS signature is optional but not nullable; the plugin
      fields are optional and nullable. */
  lemma CommitFlags()
    ensures RequiredWires(CommitCls.schema) == {"INST_ID", "VIEW_NO", "PP_SEQ_NO"}
    ensures OptionalWires(CommitCls.schema) == {"BLS_SIG", "PLUGIN_FIELDS"}
    ensures NullableWires(CommitCls.schema) == {"PLUGIN_FIELDS"}
  {
    var s := CommitCls.schema;
    assert s[0].wire == "INST_ID" && s[1].wire == "VIEW_NO" && s[2].wire == "PP_SEQ_NO";
    assert s[3].wire == "BLS_SIG" && s[4].wire == "PLUGIN_FIELDS";
  }

  /** LedgerStatus: all five fields required; view and 3PC numbers nullable. */
  lemma LedgerStatusFlags()
    ensures RequiredWires(LedgerStatusCls.schema) == {"LEDGER_ID", "TXN_SEQ_NO", "VIEW_NO", "PP_SEQ_NO", "MERKLE_ROOT"}
    ensures OptionalWires(LedgerStatusCls.schema) == {}
    ensures NullableWires(LedgerStatusCls.schema) == {"VIEW_NO", "PP_SEQ_NO"}
  {
    var s := LedgerStatusCls.schema;
    assert s[0].wire == "LEDGER_ID" && s[1].wire == "TXN_SEQ_NO" && s[2].wire == "VIEW_NO";
    assert s[3].wire == "PP_SEQ_NO" && s[4].wire == "MERKLE_ROOT";
  }

  /** `MessageReq` and `MessageRep` choose their type from the same five
      names; ViewChangeDone's name is nullable; CatchupRep's consistency
      proof is a list of 32-byte base58 values. */
  lemma NodeTableFields()
    ensures MessageReqCls.schema[0].validator.fieldType == ChooseField(MessageReqAllowedTypes)
    ensures MessageRepCls.schema[0].validator.fieldType == MessageReqCls.schema[0].validator.fieldType
    ensures |MessageReqAllowedTypes| == 5 && "PROPAGATE" in MessageReqAllowedTypes && "COMMIT" !in MessageReqAllowedTypes
    ensures NullableWires(ViewChangeDoneCls.schema) == {"NAME"}
    ensures CatchupRepCls.schema[2].wire == "CONS_PROOF" &&
            CatchupRepCls.schema[2].validator.fieldType == IterableField(Field(Base58Field([32])))
  {
    assert ViewChangeDoneCls.schema[1].wire == "NAME";
  }

  /** `ObservedData._validate_message(dct)`: the `MSG` entry must be a
      BatchCommitted instance, or a dict from which `BatchCommitted(**msg)`
      can be built; BatchCommitted has no constructor of its own, so only
      the empty dict can. */
  function ObservedDataValidateMessage(dct: seq<(Key, Value)>): (r: Outcome<ValidationError>)
    ensures Name("MSG") !in KeysOf(dct) ==> r == Fail(KeyMissing("ObservedData", Name("MSG")))
    ensures r.Pass? ==>
      Lookup(dct, Name("MSG")).Some? &&
      (Lookup(dct, Name("MSG")).value == Dict([]) ||
       (Lookup(dct, Name("MSG")).value.Msg? && Lookup(dct, Name("MSG")).value.inst.cls == BatchCommittedCls))
  {
    match Lookup(dct, Name("MSG"))
    case None => Fail(KeyMissing("ObservedData", Name("MSG")))
    case Some(msg) =>
      if msg.Msg? && msg.inst.cls == BatchCommittedCls then Pass
      else if msg.Dict? then
        (if msg.entries == [] then Pass else Fail(UnexpectedArguments("BatchCommitted")))
      else Fail(InvalidField("ObservedData", Name("MSG"), msg, "The message type must be BATCH_COMMITTED "))
  }

  /** The hook accepts exactly a BatchCommitted instance or an empty dict;
      any other non-dict value gets the invalid-field error; the hook is not
      the `validate_message` that `validate()` calls, so ObservedData's
      `validate()` never reaches it. */
  lemma ObservedDataHook(dct: seq<(Key, Value)>, inst: Instance, fc: FieldCheck)
    requires inst.cls == ObservedDataCls
    ensures ObservedDataValidateMessage(dct).Pass? <==>
      exists msg :: Lookup(dct, Name("MSG")) == Some(msg) &&
        ((msg.Msg? && msg.inst.cls == BatchCommittedCls) || msg == Dict([]))
    ensures ObservedDataValidateMessage(dct).Fail? && ObservedDataValidateMessage(dct).error.InvalidField? <==>
      exists msg :: Lookup(dct, Name("MSG")) == Some(msg) && !msg.Dict? &&
        !(msg.Msg? && msg.inst.cls == BatchCommittedCls)
    ensures Validate(inst, fc).Fail? && !Validate(inst, fc).error.InvalidField?
  {
    NodeTableShapes(inst, fc);
    assert inst.cls == PairTables[22];
    match Lookup(dct, Name("MSG"))
    case None =>
    case Some(msg) =>
      if msg.Dict? && msg.entries == [] {
        assert msg == Dict([]);
      }
  }
}
