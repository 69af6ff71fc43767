/** Building blocks shared by the message tables: validator shorthands, the
    class shapes the tables declare, the `Message` base class the tables
    refer to, and the storing constructors every table class has. */
module Classes {
  import opened Wrappers
  import opened Wire
  import opened MessageBase
  import opened MessageBaseProps

  /** A validator with its `optional` and `nullable` flags (both default False). */
  function Field(ft: FieldType, optional: bool := false, nullable: bool := false): Validator
  {
    Validator(ft, optional, nullable)
  }

  /** A MessageBase subclass that is not a Message: no `typename` or
      `version` unless the table gives one, strict schema. */
  function Record(name: string, schema: seq<SchemaItem>, initAttrs: seq<string>, typename: Option<string> := None): MsgClass
  {
    MsgClass(name, schema, initAttrs, true, true, typename, None, None, false, false)
  }

  /** `Message` (plenum/common/messages/message.py is not part of this
      model): a MessageBase subclass with the empty inherited schema. The
      descriptor attributes its constructor sets are not modelled. */
  const MessageCls: MsgClass :=
    MsgClass("Message", [], [], true, true, None, None, None, true, false)

  /** A subclass of Message declared by a table (`typename`, `version`,
      `need_signature`), together with the `data_cls` and `metadata_cls`
      that the Message machinery would use. */
  datatype MessageDecl = MessageDecl(cls: MsgClass, dataCls: Option<MsgClass>, metadataCls: Option<MsgClass>)

  function MessageSubclass(name: string, typename: Option<string>, version: Option<int>, needSignature: Option<bool>): MsgClass
  {
    MsgClass(name, [], [], true, true, typename, version, needSignature, true, false)
  }

  /** Wire names of the optional / nullable / required validators. */
  function OptionalWires(schema: seq<SchemaItem>): set<string>
  {
    set i | 0 <= i < |schema| && schema[i].validator.optional :: schema[i].wire
  }

  function NullableWires(schema: seq<SchemaItem>): set<string>
  {
    set i | 0 <= i < |schema| && schema[i].validator.nullable :: schema[i].wire
  }

  function RequiredWires(schema: seq<SchemaItem>): set<string>
  {
    set i | 0 <= i < |schema| && !schema[i].validator.optional :: schema[i].wire
  }

  predicate Distinct(names: seq<string>)
  {
    forall i, j :: 0 <= i < j < |names| ==> names[i] != names[j]
  }

  function SetAll(inst: Instance, names: seq<string>, args: seq<Value>): Instance
    requires |names| == |args|
    decreases |names|
  {
    if names == [] then inst
    else SetAll(SetAttr(inst, names[0], args[0]), names[1..], args[1..])
  }

  /** `cls(*args)`: the constructor assigns its parameters to the
      attributes of the same names, in order. */
  function Construct(cls: MsgClass, args: seq<Value>): Instance
    requires |args| == |cls.initAttrs|
  {
    SetAll(Instance(cls, []), cls.initAttrs, args)
  }

  lemma {:induction false} SetAllStores(inst: Instance, names: seq<string>, args: seq<Value>)
    requires |names| == |args| && Distinct(names)
    ensures SetAll(inst, names, args).cls == inst.cls
    ensures forall i :: 0 <= i < |names| ==> GetAttr(SetAll(inst, names, args), names[i]) == Some(args[i])
    ensures forall a :: a !in names ==> GetAttr(SetAll(inst, names, args), a) == GetAttr(inst, a)
    decreases |names|
  {
    if names != [] {
      var next := SetAttr(inst, names[0], args[0]);
      SetAllStores(next, names[1..], args[1..]);
      assert forall i :: 1 <= i < |names| ==> names[1..][i - 1] == names[i] && args[1..][i - 1] == args[i];
      forall a | a !in names
        ensures GetAttr(SetAll(inst, names, args), a) == GetAttr(inst, a)
      {
        assert a != names[0] && a !in names[1..];
      }
    }
  }

  /** A constructor stores exactly its arguments, under their own names,
      and sets nothing else; called with no arguments it is `cls()`, every
      attribute None. */
  lemma ConstructStores(cls: MsgClass, args: seq<Value>)
    requires |args| == |cls.initAttrs| && Distinct(cls.initAttrs)
    ensures Construct(cls, args).cls == cls
    ensures forall i :: 0 <= i < |args| ==> GetAttr(Construct(cls, args), cls.initAttrs[i]) == Some(args[i])
    ensures forall a :: a !in cls.initAttrs ==> GetAttr(Construct(cls, args), a).None?
    ensures (forall i :: 0 <= i < |args| ==> args[i] == Null) ==>
      forall a :: GetAttr(Construct(cls, args), a) == GetAttr(NewInstance(cls), a)
  {
    SetAllStores(Instance(cls, []), cls.initAttrs, args);
  }

  predicate DistinctWires(schema: seq<SchemaItem>)
  {
    forall i, j :: 0 <= i < j < |schema| ==> schema[i].wire != schema[j].wire
  }

  /** For an all-triples table with distinct wire names, `validator_schema`
      requires exactly the table's non-optional wire names, so a dict
      lacking any of them is refused with a missed-fields error. */
  lemma RequiredWiresAreRequired(cls: MsgClass)
    requires AllTriples(cls.schema) && DistinctWires(cls.schema)
    ensures ValidatorSchema(cls).Success?
    ensures RequiredNames(ValidatorSchema(cls).value) == RequiredWires(cls.schema)
  {
    ValidatorSchemaShape(cls);
    var d := ValidatorSchema(cls).value;
    forall i | 0 <= i < |cls.schema| ensures d[cls.schema[i].wire] == cls.schema[i].validator {
      assert LastWithWire(cls.schema, cls.schema[i].wire, i);
    }
    forall w | w in RequiredNames(d) ensures w in RequiredWires(cls.schema) {
      var i :| 0 <= i < |cls.schema| && cls.schema[i].Triple? && cls.schema[i].wire == w;
    }
  }
}
