/** plenum/common/messages/batch_message.py: the Batch container. */
module BatchMessage {
  import opened Wrappers
  import opened Wire
  import opened MessageBase
  import opened MessageBaseProps
  import opened Classes

  /** `Batch`: typename BATCH, version 0, and a schema whose single entry is
      a (wire name, validator) pair rather than a triple. */
  const BatchCls: MsgClass := MsgClass("Batch",
    [ Pair("BATCH_MSGS", Field(IterableField(Field(MessageField(MessageCls))))) ],
    ["messages"], true, true, Some("BATCH"), Some(0), None, false, false)

  /** `Batch(messages)`: the given list, in order, as `messages`. */
  function NewBatch(messages: Value): (r: Instance)
    ensures r.cls == BatchCls
    ensures GetAttr(r, "messages") == Some(messages)
    ensures forall a :: a != "messages" ==> GetAttr(r, a).None?
  {
    ConstructStores(BatchCls, [messages]);
    Construct(BatchCls, [messages])
  }

  /** `Batch()` leaves `messages` None. */
  lemma BatchDefault()
    ensures GetAttr(NewInstance(BatchCls), "messages") == Some(Null)
    ensures BatchCls.typename == Some("BATCH") && BatchCls.version == Some(0)
  {
  }

  /** The pair-shaped schema makes every Batch fail `validate()` (there is
      no attribute named after the wire name, or the pair has no third
      element) and `init_from_dict` (a pair does not unpack into three
      names), whatever it holds. */
  lemma BatchNeverValidates(messages: Value, input: Value, fc: FieldCheck)
    ensures Validate(NewBatch(messages), fc).Fail?
    ensures Validate(NewBatch(messages), fc).error in {AttributeMissing("Batch", "BATCH_MSGS"), SchemaItemIndex("Batch")}
    ensures InitFromDictSpec(NewBatch(messages), input).1 == Some(SchemaItemUnpack("Batch"))
  {
    assert BatchCls.schema[0].Pair?;
    PairSchemaNeverValidates(NewBatch(messages), fc);
    AsDictShape(NewBatch(messages));
    assert GetAttr(NewBatch(messages), ItemAttr(BatchCls.schema[0])).None?;
  }
}
