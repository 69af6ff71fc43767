/** plenum/common/messages/reply.py: the reply records, including the
    three-attributes-one-wire-name `ReplyResult` table. */
module Reply {
  import opened Wrappers
  import opened Wire
  import opened MessageBase
  import opened MessageBaseProps
  import opened Classes
  import opened Request

  const LedgerMetadataCls: MsgClass := Record("LedgerMetadata",
    [ Triple("ledgerId", "ledgerId", Field(LedgerIdField)),
      Triple("rootHash", "rootHash", Field(MerkleRootField)),
      Triple("size", "size", Field(NonNegativeNumberField)) ],
    ["ledgerId", "rootHash", "size"])

  /** The constructor sets `ledgerId`, `rootHash` and `size`, while the
      schema names `timestamp`, `poolRootHash` and `rootHash`. */
  const StateMetadataCls: MsgClass := Record("StateMetadata",
    [ Triple("timestamp", "timestamp", Field(TimestampField)),
      Triple("poolRootHash", "poolRootHash", Field(MerkleRootField)),
      Triple("rootHash", "rootHash", Field(MerkleRootField)) ],
    ["ledgerId", "rootHash", "size"])

  const SignedStateCls: MsgClass := Record("SignedState",
    [ Triple("ledgerMetadata", "ledgerMetadata", Field(MessageField(LedgerMetadataCls))),
      Triple("stateMetadata", "stateMetadata", Field(MessageField(StateMetadataCls))) ],
    ["ledgerMetadata", "stateMetadata"])

  const PoolMultiSignatureCls: MsgClass := Record("PoolMultiSignature",
    [ Triple("typename", "type", Field(EnumField(["POOL_MULTI_SIG_BLS"]))),
      Triple("frm", "from", Field(IterableField(Field(NonEmptyStringField)))),
      Triple("value", "value", Field(SerializedValueField)),
      Triple("signedState", "signedState", Field(SerializedValueField)) ],
    ["typename", "frm", "value", "signedState"])

  /** No constructor; three attributes share the wire name `multiSignature`. */
  const ReplyResultCls: MsgClass := Record("ReplyResult",
    [ Triple("result", "result", Field(AnyValueField)),
      Triple("multiSignature", "multiSignature", Field(MessageField(PoolMultiSignatureCls))),
      Triple("stateProof", "multiSignature", Field(IterableField(Field(SerializedValueField)))),
      Triple("auditProof", "multiSignature", Field(IterableField(Field(SerializedValueField)))) ],
    [])

  const ReplyDataCls: MsgClass := Record("ReplyData",
    [ Triple("results", "results", Field(IterableField(Field(MessageField(ReplyResultCls))))) ],
    ["results"])

  /** `Reply`: typename REPLY, version 0, ReplyData and RequestMetadata. */
  const ReplyDecl: MessageDecl :=
    MessageDecl(MessageSubclass("Reply", Some("REPLY"), Some(0), None), Some(ReplyDataCls), Some(RequestMetadataCls))

  lemma StateMetadataConstructorNames()
    ensures Distinct(StateMetadataCls.initAttrs)
    ensures StateMetadataCls.initAttrs[0] == "ledgerId" && StateMetadataCls.initAttrs[1] == "rootHash" &&
            StateMetadataCls.initAttrs[2] == "size" && |StateMetadataCls.initAttrs| == 3
    ensures "timestamp" !in StateMetadataCls.initAttrs && "poolRootHash" !in StateMetadataCls.initAttrs
  {
  }

  /** `StateMetadata(ledgerId, rootHash, size)`. */
  function NewStateMetadata(ledgerId: Value, rootHash: Value, size: Value): (r: Instance)
    ensures r.cls == StateMetadataCls
    ensures GetAttr(r, "ledgerId") == Some(ledgerId) && GetAttr(r, "rootHash") == Some(rootHash) &&
            GetAttr(r, "size") == Some(size)
    ensures GetAttr(r, "timestamp").None? && GetAttr(r, "poolRootHash").None?
  {
    StateMetadataConstructorNames();
    ConstructStores(StateMetadataCls, [ledgerId, rootHash, size]);
    Construct(StateMetadataCls, [ledgerId, rootHash, size])
  }

  /** LedgerMetadata requires all three of its fields. */
  lemma LedgerMetadataRequired()
    ensures RequiredNames(ValidatorSchema(LedgerMetadataCls).value) == {"ledgerId", "rootHash", "size"}
  {
    RequiredWiresAreRequired(LedgerMetadataCls);
    var s := LedgerMetadataCls.schema;
    assert s[0].wire == "ledgerId" && s[1].wire == "rootHash" && s[2].wire == "size";
  }

  /** A constructed StateMetadata never validates nor converts to a dict:
      its first schema attribute, `timestamp`, was never set. */
  lemma StateMetadataConstructorMismatch(ledgerId: Value, rootHash: Value, size: Value, fc: FieldCheck)
    ensures Validate(NewStateMetadata(ledgerId, rootHash, size), fc) == Fail(AttributeMissing("StateMetadata", "timestamp"))
    ensures ToDictSpec(NewStateMetadata(ledgerId, rootHash, size)) == Failure(AttributeMissing("StateMetadata", "timestamp"))
  {
  }

  /** `init_from_dict` on SignedState turns a present `ledgerMetadata`
      entry into a fresh LedgerMetadata instance. */
  lemma SignedStateBuildsNested(entries: seq<(Key, Value)>)
    requires Name("ledgerMetadata") in KeysOf(entries)
    requires InitFromDictSpec(NewInstance(SignedStateCls), Dict(entries)).1.None?
    ensures var m := GetAttr(InitFromDictSpec(NewInstance(SignedStateCls), Dict(entries)).0, "ledgerMetadata");
      m.Some? && m.value.Msg? && m.value.inst.cls == LedgerMetadataCls
  {
    var input := Dict(entries);
    var s := SignedStateCls.schema;
    InitFromDictEffect(NewInstance(SignedStateCls), input);
    assert !SetFromInput(s, input, 1, "ledgerMetadata");
    assert LastSetter(s, input, 0);
    MsgValueFresh(LedgerMetadataCls, InputValue(input, s[0]));
  }

  /** `init_from_dict` on ReplyData turns the `results` list into
      ReplyResult instances, one per element and in order. */
  lemma ReplyDataResultsInOrder(entries: seq<(Key, Value)>)
    requires Name("results") in KeysOf(entries)
    requires InitFromDictSpec(NewInstance(ReplyDataCls), Dict(entries)).1.None?
    ensures var v := Lookup(entries, Name("results")).value;
      var r := GetAttr(InitFromDictSpec(NewInstance(ReplyDataCls), Dict(entries)).0, "results");
      v.List? && r.Some? && r.value.List? && |r.value.items| == |v.items| &&
      forall k :: 0 <= k < |v.items| ==>
        r.value.items[k].Msg? && r.value.items[k].inst.cls == ReplyResultCls &&
        MsgValue(ReplyResultCls, v.items[k]) == Success(r.value.items[k])
  {
    var input := Dict(entries);
    var s := ReplyDataCls.schema;
    InitFromDictEffect(NewInstance(ReplyDataCls), input);
    assert LastSetter(s, input, 0);
    var v := InputValue(input, s[0]);
    ListValueInOrder(ReplyDataCls, Field(MessageField(ReplyResultCls)), v);
    var r := GetAttr(InitFromDictSpec(NewInstance(ReplyDataCls), Dict(entries)).0, "results");
    forall k | 0 <= k < |v.items| ensures r.value.items[k].Msg? && r.value.items[k].inst.cls == ReplyResultCls {
      MsgValueFresh(ReplyResultCls, v.items[k]);
    }
  }

  /** The three ReplyResult attributes under `multiSignature`: the schema
      dict keeps the last validator, that of `auditProof`. */
  lemma ReplyResultSchemaKeepsLast()
    ensures ValidatorSchema(ReplyResultCls).Success?
    ensures ValidatorSchema(ReplyResultCls).value.Keys == {"result", "multiSignature"}
    ensures ValidatorSchema(ReplyResultCls).value["multiSignature"] == Field(IterableField(Field(SerializedValueField)))
  {
    var s := ReplyResultCls.schema;
    ValidatorSchemaShape(ReplyResultCls);
    assert LastWithWire(s, "multiSignature", 3);
    assert s[0].wire == "result" && s[1].wire == "multiSignature";
  }

  /** `_as_dict` on a ReplyResult sends `auditProof` under `multiSignature`. */
  lemma ReplyResultDictKeepsLast(inst: Instance)
    requires inst.cls == ReplyResultCls && AsDict(inst).Success?
    ensures Lookup(AsDict(inst).value, Name("multiSignature")) == GetAttr(inst, "auditProof")
  {
    AsDictShape(inst);
    assert LastWithWire(inst.cls.schema, "multiSignature", 3);
  }

  /** Each of the three attributes on `multiSignature` has a single triple. */
  lemma ReplyResultLastSetters(input: Value)
    requires input.Dict? && Name("multiSignature") in KeysOf(input.entries)
    ensures LastSetter(ReplyResultCls.schema, input, 1)
    ensures LastSetter(ReplyResultCls.schema, input, 2)
    ensures LastSetter(ReplyResultCls.schema, input, 3)
  {
    var s := ReplyResultCls.schema;
    assert s[2].attr != s[3].attr;
  }

  /** `init_from_dict` writes the one `multiSignature` input value into all
      three attributes: unchanged into `stateProof` and `auditProof`,
      converted to a PoolMultiSignature for `multiSignature`. */
  lemma ReplyResultInitSetsAll(inst: Instance, entries: seq<(Key, Value)>)
    requires inst.cls == ReplyResultCls
    requires Name("multiSignature") in KeysOf(entries) && InitFromDictSpec(inst, Dict(entries)).1.None?
    ensures var v := Lookup(entries, Name("multiSignature")).value;
      var r := InitFromDictSpec(inst, Dict(entries)).0;
      GetAttr(r, "stateProof") == Some(v) && GetAttr(r, "auditProof") == Some(v) &&
      MsgValue(PoolMultiSignatureCls, v).Success? &&
      GetAttr(r, "multiSignature") == Some(MsgValue(PoolMultiSignatureCls, v).value)
  {
    ReplyResultSetsProof(inst, entries, 2);
    ReplyResultSetsProof(inst, entries, 3);
    ReplyResultSetsMultiSignature(inst, entries);
  }

  /** `stateProof` (triple 2) and `auditProof` (triple 3) take the input
      value as it is. */
  lemma ReplyResultSetsProof(inst: Instance, entries: seq<(Key, Value)>, j: nat)
    requires inst.cls == ReplyResultCls && (j == 2 || j == 3)
    requires Name("multiSignature") in KeysOf(entries) && InitFromDictSpec(inst, Dict(entries)).1.None?
    ensures GetAttr(InitFromDictSpec(inst, Dict(entries)).0, ReplyResultCls.schema[j].attr) ==
      Some(Lookup(entries, Name("multiSignature")).value)
  {
    var input := Dict(entries);
    ReplyResultLastSetters(input);
    ReplyResultConversions(entries);
    InitFromDictSetsLast(inst, input, j);
  }

  /** `multiSignature` (triple 1) takes the input value converted to a
      PoolMultiSignature. */
  lemma ReplyResultSetsMultiSignature(inst: Instance, entries: seq<(Key, Value)>)
    requires inst.cls == ReplyResultCls
    requires Name("multiSignature") in KeysOf(entries) && InitFromDictSpec(inst, Dict(entries)).1.None?
    ensures var v := Lookup(entries, Name("multiSignature")).value;
      MsgValue(PoolMultiSignatureCls, v).Success? &&
      GetAttr(InitFromDictSpec(inst, Dict(entries)).0, "multiSignature") == Some(MsgValue(PoolMultiSignatureCls, v).value)
  {
    var input := Dict(entries);
    ReplyResultLastSetters(input);
    ReplyResultConversions(entries);
    InitFromDictSetsLast(inst, input, 1);
  }

  /** What `init_from_dict` makes of the one `multiSignature` input value
      under each of the three validators that read it. */
  lemma ReplyResultConversions(entries: seq<(Key, Value)>)
    requires Name("multiSignature") in KeysOf(entries)
    ensures var s := ReplyResultCls.schema;
      var input := Dict(entries);
      var v := Lookup(entries, Name("multiSignature")).value;
      InputValue(input, s[1]) == v && InputValue(input, s[2]) == v && InputValue(input, s[3]) == v &&
      ConvertValue(ReplyResultCls, s[1].validator, v) == MsgValue(PoolMultiSignatureCls, v) &&
      ConvertValue(ReplyResultCls, s[2].validator, v) == Success(v) &&
      ConvertValue(ReplyResultCls, s[3].validator, v) == Success(v)
  {
    var s := ReplyResultCls.schema;
    assert s[1].wire == "multiSignature" && s[2].wire == "multiSignature" && s[3].wire == "multiSignature";
    ListValueInOrder(ReplyResultCls, Field(SerializedValueField), Lookup(entries, Name("multiSignature")).value);
  }

  /** `Reply` carries typename REPLY and version 0, with `ReplyData` as
      its data class and `RequestMetadata` as its metadata class. */
  lemma ReplyDeclaration()
    ensures ReplyDecl.cls.typename == Some("REPLY") && ReplyDecl.cls.version == Some(0)
    ensures ReplyDecl.cls.isMessage && ReplyDecl.cls.needSignature.None?
    ensures ReplyDecl.dataCls == Some(ReplyDataCls) && ReplyDecl.metadataCls == Some(RequestMetadataCls)
  {
  }

  /** PoolMultiSignature stores `typename` under `type` and `frm` under `from`. */
  lemma PoolMultiSignatureWires(inst: Instance)
    requires inst.cls == PoolMultiSignatureCls && AsDict(inst).Success?
    ensures Lookup(AsDict(inst).value, Name("type")) == GetAttr(inst, "typename")
    ensures Lookup(AsDict(inst).value, Name("from")) == GetAttr(inst, "frm")
  {
    AsDictShape(inst);
    assert LastWithWire(inst.cls.schema, "type", 0) && LastWithWire(inst.cls.schema, "from", 1);
  }
}
