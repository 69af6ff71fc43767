/** The round trip of plenum/common/messages/message_base.py: `to_dict()`
    followed by `init_from_dict` on a fresh instance of the same class. It
    gives back every schema attribute, field for field and recursively for
    nested messages, when the schema and the attribute values are of the
    kind the two operations handle symmetrically. Two of the message tables
    show what happens outside that case. */
module RoundTrip {
  import opened Wrappers
  import opened Wire
  import opened MessageBase
  import opened MessageBaseProps
  import opened Classes
  import opened SignedMessage
  import opened Reply

  /** A schema of triples with pairwise distinct wire names and pairwise
      distinct attribute names. */
  predicate DistinctTriples(schema: seq<SchemaItem>)
  {
    AllTriples(schema) &&
    forall i, j :: 0 <= i < j < |schema| ==> schema[i].wire != schema[j].wire && schema[i].attr != schema[j].attr
  }

  /** A field type whose wire value `init_from_dict` stores as it is. */
  predicate StoredAsGiven(t: FieldType)
  {
    !t.MessageField? && !(t.IterableField? && t.inner.fieldType.MessageField?)
  }

  /** An attribute value under a field of type `t` that survives the round
      trip: a message of the field's own class that is itself encodable,
      or a value that is no message under a field that stores its input
      as it is. */
  predicate EncodableField(t: FieldType, v: Value)
    decreases Depth(v), 1
  {
    if t.MessageField? then IsMessageBase(v) && v.inst.cls == t.cls && Encodable(v.inst)
    else StoredAsGiven(t) && !IsMessageBase(v)
  }

  /** A message whose schema has distinct wire and attribute names and whose
      schema attributes are all set, each encodable under its field. */
  predicate Encodable(inst: Instance)
    decreases Depth(Msg(inst)), 0
  {
    inst.cls.isMessageBase && DistinctTriples(inst.cls.schema) &&
    forall j :: 0 <= j < |inst.cls.schema| ==>
      var a := inst.cls.schema[j].attr;
      GetAttr(inst, a).Some? &&
      (ValueDepthBound(inst.attrs, GetAttr(inst, a).value);
       EncodableField(inst.cls.schema[j].validator.fieldType, GetAttr(inst, a).value))
  }

  /** `u` stands for `v` after the round trip: a message with the same
      fields when `v` is a message, the same value otherwise. */
  predicate SameValue(u: Value, v: Value)
    decreases Depth(v), 1
  {
    if IsMessageBase(v) then u.Msg? && SameFields(u.inst, v.inst) else u == v
  }

  /** `x` is of the class of `y` and holds every schema attribute of `y`,
      each standing for the value `y` holds. */
  predicate SameFields(x: Instance, y: Instance)
    decreases Depth(Msg(y)), 0
  {
    x.cls == y.cls &&
    forall j :: 0 <= j < |y.cls.schema| && y.cls.schema[j].Triple? ==>
      var a := y.cls.schema[j].attr;
      GetAttr(x, a).Some? && GetAttr(y, a).Some? &&
      (ValueDepthBound(y.attrs, GetAttr(y, a).value);
       SameValue(GetAttr(x, a).value, GetAttr(y, a).value))
  }

  /** `to_dict`'s loop succeeds from position i when every remaining
      attribute is set and every message among them converts. */
  lemma {:induction false} ToDictFromSucceeds(inst: Instance, i: nat, acc: seq<(Key, Value)>)
    requires i <= |inst.cls.schema|
    requires forall j :: i <= j < |inst.cls.schema| ==>
      var attr := GetAttr(inst, ItemAttr(inst.cls.schema[j]));
      attr.Some? && (IsMessageBase(attr.value) ==> ToDictSpec(attr.value.inst).Success?)
    ensures ToDictFrom(inst, i, acc).Success?
    decreases |inst.cls.schema| - i
  {
    var schema := inst.cls.schema;
    if i < |schema| {
      var v := GetAttr(inst, ItemAttr(schema[i])).value;
      var stored := if IsMessageBase(v) then Dict(ToDictSpec(v.inst).value) else v;
      assert ToDictFrom(inst, i, acc) == ToDictFrom(inst, i + 1, Put(acc, ItemKey(schema[i], i), stored));
      ToDictFromSucceeds(inst, i + 1, Put(acc, ItemKey(schema[i], i), stored));
    }
  }

  /** `init_from_dict`'s loop over a schema of triples, given a dict,
      raises nothing from position i when every value it reads converts. */
  lemma {:induction false} InitFromSucceeds(inst: Instance, input: Value, i: nat)
    requires i <= |inst.cls.schema| && AllTriples(inst.cls.schema) && input.Dict?
    requires forall j :: i <= j < |inst.cls.schema| && Name(inst.cls.schema[j].wire) in KeysOf(input.entries) ==>
      ConvertValue(inst.cls, inst.cls.schema[j].validator, InputValue(input, inst.cls.schema[j])).Success?
    ensures InitFrom(inst, input, i).1.None?
    decreases |inst.cls.schema| - i
  {
    var schema := inst.cls.schema;
    if i < |schema| {
      var item := schema[i];
      if Name(item.wire) in KeysOf(input.entries) {
        var c := ConvertValue(inst.cls, item.validator, InputValue(input, item));
        var next := SetAttr(inst, item.attr, c.value);
        assert InitFrom(inst, input, i) == InitFrom(next, input, i + 1);
        InitFromSucceeds(next, input, i + 1);
      } else {
        InitFromSucceeds(inst, input, i + 1);
      }
    }
  }

  /** One field: converting the value `to_dict` stored for an encodable
      attribute gives back a value that stands for the attribute. */
  lemma FieldRoundTrip(owner: MsgClass, validator: Validator, attr: Value, stored: Value)
    requires EncodableField(validator.fieldType, attr)
    requires ToDictStores(attr, stored)
    requires IsMessageBase(attr) ==>
      var back := InitFromDictSpec(NewInstance(attr.inst.cls), Dict(ToDictSpec(attr.inst).value));
      back.1.None? && SameFields(back.0, attr.inst)
    ensures ConvertValue(owner, validator, stored).Success?
    ensures SameValue(ConvertValue(owner, validator, stored).value, attr)
  {
    if validator.fieldType.MessageField? {
      var back := InitFromDictSpec(NewInstance(attr.inst.cls), Dict(ToDictSpec(attr.inst).value));
      assert ConvertValue(owner, validator, stored) == Success(Msg(back.0));
    }
  }

  /** `init_from_dict(to_dict())` on a fresh instance of an encodable
      message's class raises nothing and gives back every schema attribute:
      equal values, and nested messages rebuilt with the same fields. */
  lemma {:induction false} RoundTrip(inst: Instance)
    requires Encodable(inst)
    ensures ToDictSpec(inst).Success?
    ensures var back := InitFromDictSpec(NewInstance(inst.cls), Dict(ToDictSpec(inst).value));
      back.1.None? && SameFields(back.0, inst)
    decreases Depth(Msg(inst))
  {
    var cls := inst.cls;
    var schema := cls.schema;
    forall j | 0 <= j < |schema|
      ensures GetAttr(inst, schema[j].attr).Some?
      ensures EncodableField(schema[j].validator.fieldType, GetAttr(inst, schema[j].attr).value)
      ensures IsMessageBase(GetAttr(inst, schema[j].attr).value) ==>
        var n := GetAttr(inst, schema[j].attr).value.inst;
        ToDictSpec(n).Success? &&
        InitFromDictSpec(NewInstance(n.cls), Dict(ToDictSpec(n).value)).1.None? &&
        SameFields(InitFromDictSpec(NewInstance(n.cls), Dict(ToDictSpec(n).value)).0, n)
    {
      var v := GetAttr(inst, schema[j].attr).value;
      ValueDepthBound(inst.attrs, v);
      if IsMessageBase(v) {
        RoundTrip(v.inst);
      }
    }
    ToDictFromSucceeds(inst, 0, []);
    var d := ToDictSpec(inst).value;
    var input := Dict(d);
    ToDictShape(inst);
    forall j | 0 <= j < |schema|
      ensures Name(schema[j].wire) in KeysOf(d)
      ensures ToDictStores(GetAttr(inst, schema[j].attr).value, InputValue(input, schema[j]))
      ensures ConvertValue(cls, schema[j].validator, InputValue(input, schema[j])).Success?
      ensures SameValue(ConvertValue(cls, schema[j].validator, InputValue(input, schema[j])).value,
                        GetAttr(inst, schema[j].attr).value)
      ensures LastSetter(schema, input, j)
    {
      assert LastWithWire(schema, schema[j].wire, j);
      var v := GetAttr(inst, schema[j].attr).value;
      FieldRoundTrip(cls, schema[j].validator, v, InputValue(input, schema[j]));
    }
    var empty := NewInstance(cls);
    InitFromSucceeds(empty, input, 0);
    InitFromDictEffect(empty, input);
    var back := InitFromDictSpec(empty, input);
    forall j | 0 <= j < |schema| && schema[j].Triple?
      ensures GetAttr(back.0, schema[j].attr).Some?
      ensures SameValue(GetAttr(back.0, schema[j].attr).value, GetAttr(inst, schema[j].attr).value)
    {
    }
    assert SameFields(back.0, inst);
  }

  /** A message without nested messages: every schema attribute is set to
      a value that is no message, under a field that stores its input as
      it is. */
  predicate FlatAndSet(inst: Instance)
  {
    AllTriples(inst.cls.schema) &&
    forall j :: 0 <= j < |inst.cls.schema| ==>
      StoredAsGiven(inst.cls.schema[j].validator.fieldType) &&
      GetAttr(inst, inst.cls.schema[j].attr).Some? && !IsMessageBase(GetAttr(inst, inst.cls.schema[j].attr).value)
  }

  lemma FlatIsEncodable(inst: Instance)
    requires inst.cls.isMessageBase && DistinctTriples(inst.cls.schema) && FlatAndSet(inst)
    ensures Encodable(inst)
  {
  }

  /** The three record schemas involved have distinct wire and attribute
      names. */
  lemma SignedStateSchemasDistinct()
    ensures DistinctTriples(LedgerMetadataCls.schema)
    ensures DistinctTriples(StateMetadataCls.schema)
    ensures DistinctTriples(SignedStateCls.schema)
  {
    var ls, ss, gs := LedgerMetadataCls.schema, StateMetadataCls.schema, SignedStateCls.schema;
    assert ls[0].wire == "ledgerId" && ls[1].wire == "rootHash" && ls[2].wire == "size";
    assert ss[0].wire == "timestamp" && ss[1].wire == "poolRootHash" && ss[2].wire == "rootHash";
    assert gs[0].wire == "ledgerMetadata" && gs[1].wire == "stateMetadata";
  }

  lemma SignedStateEncodable(inst: Instance, ledger: Instance, state: Instance)
    requires inst.cls == SignedStateCls && Encodable(ledger) && Encodable(state)
    requires ledger.cls == LedgerMetadataCls && state.cls == StateMetadataCls
    requires GetAttr(inst, "ledgerMetadata") == Some(Msg(ledger)) && GetAttr(inst, "stateMetadata") == Some(Msg(state))
    ensures Encodable(inst)
  {
    SignedStateSchemasDistinct();
    var schema := SignedStateCls.schema;
    assert schema[0].attr == "ledgerMetadata" && schema[1].attr == "stateMetadata";
    assert EncodableField(schema[0].validator.fieldType, Msg(ledger));
    assert EncodableField(schema[1].validator.fieldType, Msg(state));
  }

  /** SignedState round-trips with both its nested records: a
      LedgerMetadata and a StateMetadata with all their fields set. */
  lemma SignedStateRoundTrip(inst: Instance, ledger: Instance, state: Instance)
    requires inst.cls == SignedStateCls && ledger.cls == LedgerMetadataCls && state.cls == StateMetadataCls
    requires GetAttr(inst, "ledgerMetadata") == Some(Msg(ledger)) && GetAttr(inst, "stateMetadata") == Some(Msg(state))
    requires FlatAndSet(ledger) && FlatAndSet(state)
    ensures ToDictSpec(inst).Success?
    ensures var back := InitFromDictSpec(NewInstance(SignedStateCls), Dict(ToDictSpec(inst).value));
      back.1.None? && SameFields(back.0, inst)
  {
    SignedStateSchemasDistinct();
    FlatIsEncodable(ledger);
    FlatIsEncodable(state);
    SignedStateEncodable(inst, ledger, state);
    RoundTrip(inst);
  }

  /** `__get_msg_value` handed a message object instead of a dict: the
      object is no mapping and holds no wire name, so the first triple of
      the class raises. */
  lemma MessageIsNoMapping(cls: MsgClass, v: Value)
    requires cls.isMessageBase && |cls.schema| > 0 && cls.schema[0].Triple? && v.Msg?
    ensures MsgValue(cls, v) == Failure(NotAMapping(cls.name, v))
  {
    var empty := NewInstance(cls);
    assert !AbsentFromNonMapping(v, cls.schema[0].wire);
    assert InitFrom(empty, v, 0) == (empty, Some(NotAMapping(cls.name, v)));
  }

  /** `__get_list_value` on a one-element list fails with the element's
      failure. */
  lemma SingletonListFails(owner: MsgClass, cls: MsgClass, v: Value, e: ValidationError)
    requires MsgValue(cls, v) == Failure(e)
    ensures ListValue(owner, Field(MessageField(cls)), List([v])) == Failure(e)
  {
    ItemDepthBound([v], 0);
    assert MsgValuesFrom(cls, [v], 0, [], Depth(List([v]))) == Failure(e);
  }

  /** `to_dict` on a Signature whose attributes are set and none of them
      a message stores its `values` list as it is. */
  lemma SignatureToDictKeepsList(s: Instance)
    requires s.cls == SignatureCls
    requires GetAttr(s, "type").Some? && !IsMessageBase(GetAttr(s, "type").value)
    requires GetAttr(s, "values").Some? && !IsMessageBase(GetAttr(s, "values").value)
    requires GetAttr(s, "threshold").Some? && !IsMessageBase(GetAttr(s, "threshold").value)
    ensures ToDictSpec(s).Success?
    ensures Lookup(ToDictSpec(s).value, Name("MSG_SIGNATURE_VALUES")) == GetAttr(s, "values")
  {
    var schema := SignatureCls.schema;
    assert schema[0].attr == "type" && schema[1].attr == "values" && schema[2].attr == "threshold";
    ToDictFromSucceeds(s, 0, []);
    ToDictShape(s);
    assert LastWithWire(schema, "MSG_SIGNATURE_VALUES", 1);
  }

  /** `init_from_dict` on a fresh Signature raises when the dict's
      `values` list holds a SignatureValue object rather than its dict. */
  lemma SignatureInitRejectsObjects(d: seq<(Key, Value)>, sv: Instance)
    requires sv.cls == SignatureValueCls
    requires Lookup(d, Name("MSG_SIGNATURE_VALUES")) == Some(List([Msg(sv)]))
    ensures InitFromDictSpec(NewInstance(SignatureCls), Dict(d)).1 == Some(NotAMapping("SignatureValue", Msg(sv)))
  {
    var schema := SignatureCls.schema;
    var input := Dict(d);
    MessageIsNoMapping(SignatureValueCls, Msg(sv));
    SingletonListFails(SignatureCls, SignatureValueCls, Msg(sv), NotAMapping("SignatureValue", Msg(sv)));
    assert schema[1].wire == "MSG_SIGNATURE_VALUES";
    assert ConvertValue(SignatureCls, schema[1].validator, List([Msg(sv)])) == Failure(NotAMapping("SignatureValue", Msg(sv)));
    var empty := NewInstance(SignatureCls);
    var first := Lookup(d, Name(schema[0].wire));
    var next := if first.Some? then SetAttr(empty, "type", first.value) else empty;
    assert InitFrom(empty, input, 0) == InitFrom(next, input, 1);
    assert InitFrom(next, input, 1).1 == Some(NotAMapping("SignatureValue", Msg(sv)));
  }

  /** The same for a Signature built by its constructor, as in
      `Signature(type, [SignatureValue(frm, value)], threshold)`. */
  lemma SignatureValuesNotRestored(typ: Value, frm: Value, sig: Value, threshold: Value)
    requires !IsMessageBase(typ) && !IsMessageBase(threshold)
    ensures var s := NewSignature(typ, List([Msg(NewSignatureValue(frm, sig))]), threshold);
      ToDictSpec(s).Success? &&
      InitFromDictSpec(NewInstance(SignatureCls), Dict(ToDictSpec(s).value)).1 ==
        Some(NotAMapping("SignatureValue", Msg(NewSignatureValue(frm, sig))))
  {
    var sv := NewSignatureValue(frm, sig);
    var s := NewSignature(typ, List([Msg(sv)]), threshold);
    SignatureToDictKeepsList(s);
    SignatureInitRejectsObjects(ToDictSpec(s).value, sv);
  }

  /** ReplyResult puts `multiSignature`, `stateProof` and `auditProof` on
      one wire name, so `to_dict` keeps only `auditProof`, and
      `init_from_dict` writes that value back into all three: a
      `stateProof` that differed from the `auditProof` is lost. */
  lemma ReplyResultLosesStateProof(inst: Instance)
    requires inst.cls == ReplyResultCls && ToDictSpec(inst).Success?
    requires GetAttr(inst, "auditProof").Some? && !IsMessageBase(GetAttr(inst, "auditProof").value)
    ensures Lookup(ToDictSpec(inst).value, Name("multiSignature")) == GetAttr(inst, "auditProof")
    ensures var back := InitFromDictSpec(NewInstance(ReplyResultCls), Dict(ToDictSpec(inst).value));
      back.1.None? ==>
        GetAttr(back.0, "stateProof") == GetAttr(inst, "auditProof") &&
        (GetAttr(inst, "stateProof") != GetAttr(inst, "auditProof") ==>
          GetAttr(back.0, "stateProof") != GetAttr(inst, "stateProof"))
  {
    var schema := ReplyResultCls.schema;
    ToDictShape(inst);
    assert LastWithWire(schema, "multiSignature", 3);
    var d := ToDictSpec(inst).value;
    if InitFromDictSpec(NewInstance(ReplyResultCls), Dict(d)).1.None? {
      ReplyResultInitSetsAll(NewInstance(ReplyResultCls), d);
    }
  }
}
