/** plenum/common/messages/signed_message.py: the signature records and the
    signed envelope, whose schema is built per instance around `msgCls`. */
module SignedMessage {
  import opened Wrappers
  import opened Wire
  import opened MessageBase
  import opened Classes

  const SignatureValueCls: MsgClass := Record("SignatureValue",
    [ Triple("frm", "MSG_SIGNATURE_VALUES_FROM", Field(NonEmptyStringField)),
      Triple("value", "MSG_SIGNATURE_VALUES_VALUE", Field(LimitedLengthStringField(SignatureFieldLimit))) ],
    ["frm", "value"])

  const SignatureCls: MsgClass := Record("Signature",
    [ Triple("type", "MSG_SIGNATURE_TYPE", Field(EnumField(["SIGNATURE_ED25519", "SIGNATURE_ED25519_MULTI"]))),
      Triple("values", "MSG_SIGNATURE_VALUES", Field(IterableField(Field(MessageField(SignatureValueCls))))),
      Triple("threshold", "MSG_SIGNATURE_THRESHOLD", Field(NonNegativeNumberField, optional := true)) ],
    ["type", "values", "threshold"])

  /** The schema `SignedMessage.__init__` assigns to the instance, around
      the class attribute `msgCls`. */
  function SignedMessageSchema(msgCls: MsgClass): seq<SchemaItem>
  {
    [ Triple("serialization", "SIGNED_MSG_SER", Field(EnumField(["SERIALIZATION_MSG_PACK"]), optional := true)),
      Triple("msg_serialized", "SIGNED_MSG_DATA_SERIALIZED", Field(SerializedValueField)),
      Triple("signature", "SIGNED_MSG_SIGNATURE", Field(MessageField(SignatureCls))),
      Triple("msg", "SIGNED_MSG_DATA", Field(MessageField(msgCls), optional := true)) ]
  }

  /** SignedMessage or a subclass: version 0 unless overridden, and the
      schema built from the `msgCls` the class sees. */
  function SignedMessageClass(name: string, typename: Option<string>, msgCls: MsgClass): MsgClass
  {
    MsgClass(name, SignedMessageSchema(msgCls), ["serialization", "msg_serialized", "msg", "signature"],
             true, true, typename, Some(0), None, false, true)
  }

  /** `SignedMessage` itself: no typename, version 0, `msgCls = Message`. */
  const SignedMessageCls: MsgClass := SignedMessageClass("SignedMessage", None, MessageCls)

  /** `SignatureValue(frm, value)`. */
  function NewSignatureValue(frm: Value, value: Value): (r: Instance)
    ensures r.cls == SignatureValueCls
    ensures GetAttr(r, "frm") == Some(frm) && GetAttr(r, "value") == Some(value)
  {
    ConstructStores(SignatureValueCls, [frm, value]);
    Construct(SignatureValueCls, [frm, value])
  }

  /** `Signature(type, values, threshold)`. */
  function NewSignature(typ: Value, values: Value, threshold: Value): (r: Instance)
    ensures r.cls == SignatureCls
    ensures GetAttr(r, "type") == Some(typ) && GetAttr(r, "values") == Some(values) &&
            GetAttr(r, "threshold") == Some(threshold)
  {
    ConstructStores(SignatureCls, [typ, values, threshold]);
    Construct(SignatureCls, [typ, values, threshold])
  }

  /** `cls(serialization, msg_serialized, msg, signature)` for SignedMessage
      or a subclass: the four arguments are stored unchanged. */
  function NewSignedMessage(cls: MsgClass, serialization: Value, msgSerialized: Value, msg: Value, signature: Value): (r: Instance)
    requires cls.initAttrs == ["serialization", "msg_serialized", "msg", "signature"]
    ensures r.cls == cls
    ensures GetAttr(r, "serialization") == Some(serialization) && GetAttr(r, "msg_serialized") == Some(msgSerialized) &&
            GetAttr(r, "msg") == Some(msg) && GetAttr(r, "signature") == Some(signature)
  {
    ConstructStores(cls, [serialization, msgSerialized, msg, signature]);
    assert cls.initAttrs[1] == "msg_serialized" && cls.initAttrs[2] == "msg" && cls.initAttrs[3] == "signature";
    Construct(cls, [serialization, msgSerialized, msg, signature])
  }

  /** Both signature-value fields are required; the signature type is one of
      the two Ed25519 names, its values are SignatureValue messages and its
      threshold is optional and None by default. */
  lemma SignatureTables()
    ensures RequiredWires(SignatureValueCls.schema) == {"MSG_SIGNATURE_VALUES_FROM", "MSG_SIGNATURE_VALUES_VALUE"}
    ensures OptionalWires(SignatureCls.schema) == {"MSG_SIGNATURE_THRESHOLD"}
    ensures SignatureCls.schema[0].validator.fieldType.expectedValues == ["SIGNATURE_ED25519", "SIGNATURE_ED25519_MULTI"]
    ensures SignatureCls.schema[1].validator.fieldType == IterableField(Field(MessageField(SignatureValueCls)))
    ensures GetAttr(NewInstance(SignatureCls), "threshold") == Some(Null)
  {
    assert SignatureValueCls.schema[0].wire == "MSG_SIGNATURE_VALUES_FROM";
    assert SignatureValueCls.schema[1].wire == "MSG_SIGNATURE_VALUES_VALUE";
    assert SignatureCls.schema[2].validator.optional;
  }

  /** `serialization` and `msg` are optional, `msg_serialized` and
      `signature` required, whatever class `msgCls` names. */
  lemma SignedMessageOptionality(msgCls: MsgClass)
    ensures OptionalWires(SignedMessageSchema(msgCls)) == {"SIGNED_MSG_SER", "SIGNED_MSG_DATA"}
    ensures RequiredWires(SignedMessageSchema(msgCls)) == {"SIGNED_MSG_DATA_SERIALIZED", "SIGNED_MSG_SIGNATURE"}
  {
    var s := SignedMessageSchema(msgCls);
    assert s[0].wire == "SIGNED_MSG_SER" && s[3].wire == "SIGNED_MSG_DATA";
    assert s[1].wire == "SIGNED_MSG_DATA_SERIALIZED" && s[2].wire == "SIGNED_MSG_SIGNATURE";
  }
}
