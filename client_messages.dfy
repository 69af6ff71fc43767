/** plenum/common/messages/client_messages.py: the NYM, NODE and GET_TXN
    request tables, their signed wrappers and the NODE HA-field check. */
module ClientMessages {
  import opened Wrappers
  import opened Wire
  import opened MessageBase
  import opened MessageBaseProps
  import opened Classes
  import opened SignedMessage
  import opened Request

  const NymRequestDataCls: MsgClass := Record("NymRequestData",
    [ Triple("alias", "alias", Field(LimitedLengthStringField(AliasFieldLimit), optional := true)),
      Triple("verkey", "verkey", Field(VerkeyField, optional := true, nullable := true)),
      Triple("did", "did", Field(IdentifierField)),
      Triple("role", "role", Field(RoleField, optional := true)) ],
    ["alias", "verkey", "did", "role"])

  /** `NymRequest`: typename NYM, version 0, `need_signature = True`. */
  const NymRequestDecl: MessageDecl :=
    MessageDecl(MessageSubclass("NymRequest", Some("NYM"), Some(0), Some(true)), Some(NymRequestDataCls), Some(RequestMetadataCls))

  /** `SignedNymRequest`: it sets `msg_cls`, an attribute nothing reads, so
      its schema is built around the inherited `msgCls`, which is Message. */
  const SignedNymRequestCls: MsgClass := SignedMessageClass("SignedNymRequest", Some("NYM"), MessageCls)

  const NodeRequestDataCls: MsgClass := Record("NodeRequestData",
    [ Triple("alias", "alias", Field(LimitedLengthStringField(AliasFieldLimit))),
      Triple("did", "did", Field(IdentifierField)),
      Triple("verkey", "verkey", Field(VerkeyField, optional := true, nullable := true)),
      Triple("node_ip", "nodeIp", Field(NetworkIpAddressField, optional := true)),
      Triple("node_port", "nodePort", Field(NetworkPortField, optional := true)),
      Triple("client_ip", "clientIp", Field(NetworkIpAddressField, optional := true)),
      Triple("client_port", "clientPort", Field(NetworkPortField, optional := true)),
      Triple("services", "services", Field(IterableField(Field(ChooseField({"VALIDATOR"}))), optional := true)),
      Triple("blskey", "blskey", Field(Base58Field([128]), optional := true)) ],
    ["alias", "did", "verkey", "node_ip", "node_port", "client_ip", "client_port", "services", "blskey"])

  const NodeRequestDecl: MessageDecl :=
    MessageDecl(MessageSubclass("NodeRequest", Some("NODE"), Some(0), Some(true)), Some(NodeRequestDataCls), Some(RequestMetadataCls))

  const SignedNodeRequestCls: MsgClass := SignedMessageClass("SignedNodeRequest", Some("NODE"), MessageCls)

  /** `GetTxnRequestData` derives from MessageValidator only and has no
      constructor. */
  const GetTxnRequestDataCls: MsgClass := MsgClass("GetTxnRequestData",
    [ Triple("ledgerId", "ledgerId", Field(LedgerIdField, optional := true)),
      Triple("seqNo", "seqNo", Field(TxnSeqNoField)) ],
    [], false, true, None, None, None, false, false)

  const GetTxnRequestDecl: MessageDecl :=
    MessageDecl(MessageSubclass("GetTxnRequest", Some("GET_TXN"), Some(0), None), Some(GetTxnRequestDataCls), Some(RequestMetadataCls))

  // ---------------------------------------------------------------------
  // NodeRequestData._validate_message

  const HaFields: set<string> := {"nodeIp", "nodePort", "clientIp", "clientPort"}

  /** The HA wire names the dict holds. */
  function HaPresent(d: seq<(Key, Value)>): set<string>
  {
    set f | f in HaFields && Name(f) in KeysOf(d)
  }

  /** `_validate_message(dct)`: with some but not all HA fields present,
      a missed-fields error naming the absent ones. */
  function NodeRequestHaCheck(d: seq<(Key, Value)>): (r: Outcome<ValidationError>)
    ensures HaPresent(d) == {} || HaPresent(d) == HaFields ==> r.Pass?
    ensures r.Fail? ==> r.error.MissedFields? && r.error.fields != {} && r.error.fields <= HaFields
  {
    var ha := HaPresent(d);
    if ha != {} && |ha| != |HaFields| then Fail(MissedFields(NodeRequestDataCls.name, HaFields - ha))
    else Pass
  }

  /** The HA fields go all together or not at all; a partial set is
      refused naming exactly the absent ones. */
  lemma NodeRequestHaAllOrNone(d: seq<(Key, Value)>)
    ensures NodeRequestHaCheck(d).Pass? <==> HaPresent(d) == {} || HaPresent(d) == HaFields
    ensures NodeRequestHaCheck(d).Fail? ==>
      NodeRequestHaCheck(d).error == MissedFields("NodeRequestData", HaFields - HaPresent(d)) &&
      HaFields - HaPresent(d) != {} && HaPresent(d) != {}
  {
    var ha := HaPresent(d);
    assert |HaFields| == 4;
    if ha != HaFields {
      var x :| x in HaFields && x !in ha;
      assert ha <= HaFields - {x};
      SubsetCard(ha, HaFields - {x});
    }
  }

  lemma SubsetCard(a: set<string>, b: set<string>)
    requires a <= b
    ensures |a| <= |b|
  {
    assert b == a + (b - a);
  }

  /** `validate()` calls `validate_message`, not `_validate_message`: a dict
      with one HA field only is refused by the check and yet passes the
      hook `validate` calls. */
  lemma NodeRequestHaCheckNotCalled()
    ensures var d := [(Name("nodeIp"), Str("10.0.0.1"))];
      NodeRequestHaCheck(d).Fail? && ValidateMessage(NodeRequestDataCls, d).Pass?
  {
    var d := [(Name("nodeIp"), Str("10.0.0.1"))];
    assert HaPresent(d) == {"nodeIp"};
    NodeRequestHaAllOrNone(d);
  }

  // ---------------------------------------------------------------------
  // Table facts

  /** NymRequestData requires only `did`. */
  lemma NymRequestDataRequired()
    ensures RequiredNames(ValidatorSchema(NymRequestDataCls).value) == {"did"}
  {
    RequiredWiresAreRequired(NymRequestDataCls);
    var s := NymRequestDataCls.schema;
    assert s[2].wire == "did";
  }

  /** NodeRequestData requires `alias` and `did`. */
  lemma NodeRequestDataRequired()
    ensures RequiredNames(ValidatorSchema(NodeRequestDataCls).value) == {"alias", "did"}
  {
    NodeRequestDataWiresDistinct();
    RequiredWiresAreRequired(NodeRequestDataCls);
    var t := NodeRequestDataCls.schema;
    assert t[0].wire == "alias" && t[1].wire == "did";
  }

  lemma NodeRequestDataWiresDistinct()
    ensures AllTriples(NodeRequestDataCls.schema) && DistinctWires(NodeRequestDataCls.schema)
  {
  }

  /** NodeRequestData's `services` may only choose VALIDATOR. */
  lemma NodeRequestServices()
    ensures ValidatorSchema(NodeRequestDataCls).Success?
    ensures ValidatorSchema(NodeRequestDataCls).value["services"] ==
      Field(IterableField(Field(ChooseField({"VALIDATOR"}))), optional := true)
  {
    ValidatorSchemaShape(NodeRequestDataCls);
    assert LastWithWire(NodeRequestDataCls.schema, "services", 7);
  }

  /** The signed wrappers share their request's typename, with version 0,
      and their `msg` field holds a Message, not the request class their
      `msg_cls` names. */
  lemma SignedWrappers()
    ensures SignedNymRequestCls.typename == NymRequestDecl.cls.typename && SignedNymRequestCls.version == Some(0)
    ensures SignedNodeRequestCls.typename == NodeRequestDecl.cls.typename && SignedNodeRequestCls.version == Some(0)
    ensures ValidatorSchema(SignedNymRequestCls).value["SIGNED_MSG_DATA"].fieldType == MessageField(MessageCls)
    ensures ValidatorSchema(SignedNymRequestCls).value["SIGNED_MSG_DATA"].fieldType != MessageField(NymRequestDecl.cls)
  {
    ValidatorSchemaShape(SignedNymRequestCls);
    assert LastWithWire(SignedNymRequestCls.schema, "SIGNED_MSG_DATA", 3);
    assert MessageCls.name != NymRequestDecl.cls.name;
  }

  /** GetTxnRequestData requires `seqNo` only, and being no MessageBase it
      has neither `validate` nor `init_from_dict`. */
  lemma GetTxnRequestDataIsNoMessageBase(input: Value, fc: FieldCheck)
    ensures RequiredWires(GetTxnRequestDataCls.schema) == {"seqNo"}
    ensures Validate(NewInstance(GetTxnRequestDataCls), fc) == Fail(NoSuchMethod("GetTxnRequestData", "validate"))
    ensures InitFromDictSpec(NewInstance(GetTxnRequestDataCls), input).1 == Some(NoSuchMethod("GetTxnRequestData", "init_from_dict"))
  {
    assert GetTxnRequestDataCls.schema[1].wire == "seqNo";
  }
}
