/** The schema engine of plenum/common/messages/message_base.py:
    `MessageValidator.validate_fields_with_schema` and the `MessageBase`
    members `validator_schema`, `_as_dict`, `validate`, `to_dict` and
    `init_from_dict` (with its helpers for nested and listed messages). */
module MessageBase {
  import opened Wrappers
  import opened Wire

  /** The verdict of a field validator on a value: None or a reason. The
      validator library is not part of this model, so every operation takes
      this verdict as a parameter. */
  type FieldCheck = (Validator, Value) -> Option<string>

  /** A validator's answer rejects only when it is a non-empty string
      (`if validation_error:`). */
  predicate Rejects(reason: Option<string>)
  {
    reason.Some? && reason.value != ""
  }

  /** The exceptions the engine raises. The first five are the
      `validation error [Class]: ...` TypeErrors; the others are the Python
      errors the engine runs into on shapes it does not expect. */
  datatype ValidationError =
    | InvalidType(cls: string, value: Value)
    | MissedFields(cls: string, fields: set<string>)
    | UnknownField(cls: string, field: Key, value: Value)
    | InvalidField(cls: string, field: Key, value: Value, reason: string)
    | InvalidMessage(cls: string, reason: string)
    | AttributeMissing(cls: string, attr: string)   // getattr of an attribute never set
    | SchemaItemIndex(cls: string)                  // schema_item[2] of a pair-shaped item
    | SchemaItemUnpack(cls: string)                 // a pair unpacked into three names
    | NoSuchMethod(cls: string, member: string)     // a MessageValidator that is no MessageBase
    | NotAMapping(cls: string, value: Value)        // init_from_dict given a non-dict
    | NotIterable(cls: string, value: Value)        // a listed-messages field given a non-list
    | KeyMissing(cls: string, key: Key)             // dct[key] on an absent key
    | UnexpectedArguments(cls: string)              // keyword arguments to a class without __init__

  /** `validator_schema`: wire name -> validator. */
  type SchemaDict = map<string, Validator>

  /** `schema_item[1]`: the wire name of a triple, the validator object of a pair. */
  function ItemKey(item: SchemaItem, i: nat): Key
  {
    match item
    case Triple(_, wire, _) => Name(wire)
    case Pair(_, _) => ValidatorObject(i)
  }

  /** `schema_item[0]`: the attribute of a triple, the wire name of a pair. */
  function ItemAttr(item: SchemaItem): string
  {
    match item
    case Triple(attr, _, _) => attr
    case Pair(wire, _) => wire
  }

  predicate AllTriples(schema: seq<SchemaItem>)
  {
    forall i :: 0 <= i < |schema| ==> schema[i].Triple?
  }

  /** Index of the last schema item with the given wire name. */
  predicate LastWithWire(schema: seq<SchemaItem>, w: string, i: nat)
  {
    i < |schema| && schema[i].Triple? && schema[i].wire == w &&
    forall j :: i < j < |schema| ==> !(schema[j].Triple? && schema[j].wire == w)
  }

  // ---------------------------------------------------------------------
  // validator_schema

  function SchemaDictFrom(schema: seq<SchemaItem>, i: nat, acc: SchemaDict): (r: Result<SchemaDict, ()>)
    requires i <= |schema|
    ensures r.Success? <==> forall j :: i <= j < |schema| ==> schema[j].Triple?
    decreases |schema| - i
  {
    if i == |schema| then Success(acc)
    else if schema[i].Pair? then Failure(())
    else SchemaDictFrom(schema, i + 1, acc[schema[i].wire := schema[i].validator])
  }

  /** `validator_schema`: fails (IndexError) on a pair-shaped schema. */
  function ValidatorSchema(cls: MsgClass): (r: Result<SchemaDict, ValidationError>)
    ensures r.Success? <==> AllTriples(cls.schema)
    ensures r.Failure? ==> r.error == SchemaItemIndex(cls.name)
  {
    match SchemaDictFrom(cls.schema, 0, map[])
    case Success(d) => Success(d)
    case Failure(_) => Failure(SchemaItemIndex(cls.name))
  }

  /** Wire names of the required (non-optional) fields. */
  function RequiredNames(schema: SchemaDict): set<string>
  {
    set w | w in schema && !schema[w].optional
  }

  /** The string keys of a dict. */
  function NamesOf(keys: set<Key>): set<string>
  {
    set k | k in keys && k.Name? :: k.name
  }

  // ---------------------------------------------------------------------
  // _as_dict

  function AsDictFrom(inst: Instance, i: nat, acc: seq<(Key, Value)>): Result<seq<(Key, Value)>, ValidationError>
    requires i <= |inst.cls.schema|
    decreases |inst.cls.schema| - i
  {
    if i == |inst.cls.schema| then Success(acc)
    else
      var item := inst.cls.schema[i];
      match GetAttr(inst, ItemAttr(item))
      case None => Failure(AttributeMissing(inst.cls.name, ItemAttr(item)))
      case Some(v) => AsDictFrom(inst, i + 1, Put(acc, ItemKey(item, i), v))
  }

  /** The values `_as_dict` collects are values of the instance's attributes. */
  lemma {:induction false} AsDictFromValues(inst: Instance, i: nat, acc: seq<(Key, Value)>)
    requires i <= |inst.cls.schema|
    requires forall j :: 0 <= j < |acc| ==> acc[j].1 in ValuesOf(inst.attrs)
    ensures AsDictFrom(inst, i, acc).Success? ==>
      forall j :: 0 <= j < |AsDictFrom(inst, i, acc).value| ==> AsDictFrom(inst, i, acc).value[j].1 in ValuesOf(inst.attrs)
    decreases |inst.cls.schema| - i
  {
    if i < |inst.cls.schema| {
      var item := inst.cls.schema[i];
      var v := GetAttr(inst, ItemAttr(item));
      if v.Some? {
        PutValues(acc, ItemKey(item, i), v.value);
        AsDictFromValues(inst, i + 1, Put(acc, ItemKey(item, i), v.value));
      }
    }
  }

  lemma {:induction false} PutValues<K(!new), V>(d: seq<(K, V)>, k: K, v: V)
    ensures forall j :: 0 <= j < |Put(d, k, v)| ==>
      Put(d, k, v)[j].1 == v || Put(d, k, v)[j] in d
  {
    if d != [] && d[0].0 != k {
      PutValues(d[1..], k, v);
    }
  }

  /** `_as_dict`: schema_item[1] -> getattr(self, schema_item[0]), in schema order. */
  function AsDict(inst: Instance): (r: Result<seq<(Key, Value)>, ValidationError>)
    ensures r.Success? ==> forall j :: 0 <= j < |r.value| ==> r.value[j].1 in ValuesOf(inst.attrs)
  {
    AsDictFromValues(inst, 0, []);
    AsDictFrom(inst, 0, [])
  }

  // ---------------------------------------------------------------------
  // validate_fields_with_schema and validate

  /** `validate_fields_with_schema(schema, x)` called on an object of class `cls`. */
  function ValidateFieldsWithSchema(cls: MsgClass, schema: SchemaDict, x: Value, fc: FieldCheck): (r: Outcome<ValidationError>)
    ensures r.Pass? ==> x.Dict? && RequiredNames(schema) <= NamesOf(KeysOf(x.entries))
    decreases Depth(x), 1
  {
    if !x.Dict? then Fail(InvalidType(cls.name, x))
    else
      var missed := RequiredNames(schema) - NamesOf(KeysOf(x.entries));
      if missed != {} then Fail(MissedFields(cls.name, missed))
      else
        assert RequiredNames(schema) <= NamesOf(KeysOf(x.entries)) by {
          forall w | w in RequiredNames(schema) ensures w in NamesOf(KeysOf(x.entries)) {
            assert w !in missed;
          }
        }
        forall i | 0 <= i < |x.entries| ensures Depth(x.entries[i].1) < Depth(x) {
          EntryDepthBound(x.entries, i);
        }
        CheckEntries(cls, schema, x.entries, fc, Depth(x))
  }

  /** The loop over the dict's items, stopping at the first failure. */
  function CheckEntries(cls: MsgClass, schema: SchemaDict, entries: seq<(Key, Value)>, fc: FieldCheck, ghost bound: nat): Outcome<ValidationError>
    requires forall i :: 0 <= i < |entries| ==> Depth(entries[i].1) < bound
    decreases bound, 0, |entries|
  {
    if entries == [] then Pass
    else
      match CheckEntry(cls, schema, entries[0], fc, bound)
      case Fail(e) => Fail(e)
      case Pass => CheckEntries(cls, schema, entries[1..], fc, bound)
  }

  /** One iteration: unknown key, field validator, then nested messages. */
  function CheckEntry(cls: MsgClass, schema: SchemaDict, e: (Key, Value), fc: FieldCheck, ghost bound: nat): Outcome<ValidationError>
    requires Depth(e.1) < bound
    decreases bound, 0, 0
  {
    var (k, v) := e;
    if !(k.Name? && k.name in schema) then
      if cls.schemaIsStrict then Fail(UnknownField(cls.name, k, v)) else Pass
    else
      var reason := fc(schema[k.name], v);
      if Rejects(reason) then Fail(InvalidField(cls.name, k, v, reason.value))
      else if IsMessageBase(v) then Validate(v.inst, fc)
      else if v.List? then
        forall i | 0 <= i < |v.items| ensures Depth(v.items[i]) < Depth(v) {
          ItemDepthBound(v.items, i);
        }
        ValidateItems(v.items, fc, Depth(v))
      else Pass
  }

  /** The elements of a listed value that are messages are validated in order. */
  function ValidateItems(items: seq<Value>, fc: FieldCheck, ghost bound: nat): Outcome<ValidationError>
    requires forall i :: 0 <= i < |items| ==> Depth(items[i]) < bound
    decreases bound, 0, |items|
  {
    if items == [] then Pass
    else
      var first := if IsMessageBase(items[0]) then Validate(items[0].inst, fc) else Pass;
      if first.Fail? then first else ValidateItems(items[1..], fc, bound)
  }

  /** `validate_message`: the hook `validate` calls last. No class of the
      core overrides it (several define `_validate_message` instead), so it
      accepts. */
  function ValidateMessage(cls: MsgClass, d: seq<(Key, Value)>): (r: Outcome<ValidationError>)
    ensures r.Pass?
  {
    Pass
  }

  /** `validate()`: the instance's own attributes checked against its own schema. */
  function Validate(inst: Instance, fc: FieldCheck): (r: Outcome<ValidationError>)
    ensures r.Pass? ==> inst.cls.isMessageBase && AllTriples(inst.cls.schema) && AsDict(inst).Success?
    decreases Depth(Msg(inst)), 2
  {
    if !inst.cls.isMessageBase then Fail(NoSuchMethod(inst.cls.name, "validate"))
    else
      match AsDict(inst)
      case Failure(e) => Fail(e)
      case Success(d) =>
        match ValidatorSchema(inst.cls)
        case Failure(e) => Fail(e)
        case Success(schema) =>
          ValuesFromAttrsBound(d, inst);
          match ValidateFieldsWithSchema(inst.cls, schema, Dict(d), fc)
          case Fail(e) => Fail(e)
          case Pass => ValidateMessage(inst.cls, d)
  }

  // ---------------------------------------------------------------------
  // to_dict

  function ToDictFrom(inst: Instance, i: nat, acc: seq<(Key, Value)>): (r: Result<seq<(Key, Value)>, ValidationError>)
    requires i <= |inst.cls.schema|
    ensures r.Success? ==> forall j :: i <= j < |inst.cls.schema| ==> GetAttr(inst, ItemAttr(inst.cls.schema[j])).Some?
    ensures r.Failure? ==> r.error.AttributeMissing? || r.error.NoSuchMethod?
    decreases Depth(Msg(inst)), 0, |inst.cls.schema| - i
  {
    if i == |inst.cls.schema| then Success(acc)
    else
      var item := inst.cls.schema[i];
      match GetAttr(inst, ItemAttr(item))
      case None => Failure(AttributeMissing(inst.cls.name, ItemAttr(item)))
      case Some(v) =>
        if IsMessageBase(v) then
          ValueDepthBound(inst.attrs, v);
          match ToDictSpec(v.inst)
          case Failure(e) => Failure(e)
          case Success(d) => ToDictFrom(inst, i + 1, Put(acc, ItemKey(item, i), Dict(d)))
        else ToDictFrom(inst, i + 1, Put(acc, ItemKey(item, i), v))
  }

  /** What `to_dict()` returns: schema order, an attribute that is itself a
      message converted by its own `to_dict`, everything else (lists of
      messages included) stored as it is. */
  function ToDictSpec(inst: Instance): (r: Result<seq<(Key, Value)>, ValidationError>)
    ensures r.Success? ==>
      inst.cls.isMessageBase && forall j :: 0 <= j < |inst.cls.schema| ==> GetAttr(inst, ItemAttr(inst.cls.schema[j])).Some?
    ensures r.Failure? ==> r.error.AttributeMissing? || r.error.NoSuchMethod?
    decreases Depth(Msg(inst)), 1, 0
  {
    if !inst.cls.isMessageBase then Failure(NoSuchMethod(inst.cls.name, "to_dict"))
    else ToDictFrom(inst, 0, [])
  }

  /** `to_dict()`, building the result dict item by item. */
  method ToDict(inst: Instance) returns (r: Result<seq<(Key, Value)>, ValidationError>)
    ensures r == ToDictSpec(inst)
    decreases Depth(Msg(inst)), 2, 0
  {
    if !inst.cls.isMessageBase {
      return Failure(NoSuchMethod(inst.cls.name, "to_dict"));
    }
    var res: seq<(Key, Value)> := [];
    var i := 0;
    while i < |inst.cls.schema|
      invariant 0 <= i <= |inst.cls.schema|
      invariant ToDictFrom(inst, i, res) == ToDictSpec(inst)
    {
      var item := inst.cls.schema[i];
      var attr := GetAttr(inst, ItemAttr(item));
      if attr.None? {
        return Failure(AttributeMissing(inst.cls.name, ItemAttr(item)));
      }
      var v := attr.value;
      if IsMessageBase(v) {
        ValueDepthBound(inst.attrs, v);
        var nested := ToDict(v.inst);
        if nested.Failure? {
          return Failure(nested.error);
        }
        v := Dict(nested.value);
      }
      res := Put(res, ItemKey(item, i), v);
      i := i + 1;
    }
    return Success(res);
  }

  // ---------------------------------------------------------------------
  // init_from_dict

  /** The object after the loop stopped, with the exception that stopped it
      (None when every item was processed). Items set before an exception
      stay set, as they do on the Python object. */
  type InitOutcome = (Instance, Option<ValidationError>)

  /** The exceptions `init_from_dict` can raise: an unpackable schema item,
      an input that is no mapping, a listed-messages field given a
      non-list, and a class without the method. */
  predicate InitRaises(e: ValidationError)
  {
    e.SchemaItemUnpack? || e.NotAMapping? || e.NotIterable? || e.NoSuchMethod?
  }

  function InitFrom(inst: Instance, input: Value, i: nat): (r: InitOutcome)
    requires i <= |inst.cls.schema|
    ensures r.0.cls == inst.cls
    ensures r.1.Some? ==> InitRaises(r.1.value)
    ensures r.1.None? ==> forall j :: i <= j < |inst.cls.schema| ==> inst.cls.schema[j].Triple?
    decreases Depth(input), 0, |inst.cls.schema| - i
  {
    if i == |inst.cls.schema| then (inst, None)
    else
      var item := inst.cls.schema[i];
      if item.Pair? then (inst, Some(SchemaItemUnpack(inst.cls.name)))
      else if !input.Dict? then
        if AbsentFromNonMapping(input, item.wire) then InitFrom(inst, input, i + 1)
        else (inst, Some(NotAMapping(inst.cls.name, input)))
      else
        match Lookup(input.entries, Name(item.wire))
        case None => InitFrom(inst, input, i + 1)
        case Some(v) =>
          ValueDepthBound(input.entries, v);
          match ConvertValue(inst.cls, item.validator, v)
          case Failure(e) => (inst, Some(e))
          case Success(converted) => InitFrom(SetAttr(inst, item.attr, converted), input, i + 1)
  }

  /** `s[k..k + |w|] == w` for some k. */
  predicate IsSubstring(w: string, s: string)
    decreases |s|
  {
    |w| <= |s| && (s[..|w|] == w || (|s| > 0 && IsSubstring(w, s[1..])))
  }

  /** `wire not in input` for an input that is not a dict, when Python can
      answer it: a list answers by membership and a string by substring;
      then the item is skipped. Otherwise (the name is found, so the input is
      indexed by a string, or the input supports no `in` at all) a TypeError
      is raised. */
  predicate AbsentFromNonMapping(input: Value, wire: string)
  {
    (input.List? && Str(wire) !in input.items) || (input.Str? && !IsSubstring(wire, input.s))
  }

  /** What `init_from_dict(input)` leaves in the object, and what it raises. */
  function InitFromDictSpec(inst: Instance, input: Value): (r: InitOutcome)
    ensures r.0.cls == inst.cls
    ensures r.1.Some? ==> InitRaises(r.1.value)
    ensures !inst.cls.isMessageBase || !AllTriples(inst.cls.schema) ==> r.1.Some?
    decreases Depth(input), 1, 0
  {
    if !inst.cls.isMessageBase then (inst, Some(NoSuchMethod(inst.cls.name, "init_from_dict")))
    else InitFrom(inst, input, 0)
  }

  /** The conversion applied to a wire value before it is stored. */
  function ConvertValue(owner: MsgClass, validator: Validator, v: Value): (r: Result<Value, ValidationError>)
    ensures r.Failure? ==> InitRaises(r.error)
    decreases Depth(v), 4, 0
  {
    match validator.fieldType
    case IterableField(inner) => ListValue(owner, inner, v)
    case MessageField(cls) => MsgValue(cls, v)
    case _ => Success(v)
  }

  /** `__get_msg_value`: a fresh `cls()` filled by its own `init_from_dict`. */
  function MsgValue(cls: MsgClass, v: Value): (r: Result<Value, ValidationError>)
    ensures r.Success? ==> r.value.Msg? && r.value.inst.cls == cls && cls.isMessageBase
    ensures r.Failure? ==> InitRaises(r.error)
    decreases Depth(v), 2, 0
  {
    match InitFromDictSpec(NewInstance(cls), v)
    case (m, None) => Success(Msg(m))
    case (_, Some(e)) => Failure(e)
  }

  /** `__get_list_value`: element-wise `__get_msg_value` when the inner
      validator is a MessageField, otherwise the value as it is. */
  function ListValue(owner: MsgClass, inner: Validator, v: Value): (r: Result<Value, ValidationError>)
    ensures inner.fieldType.MessageField? && r.Success? ==>
      v.List? && r.value.List? && |r.value.items| == |v.items| &&
      forall k :: 0 <= k < |r.value.items| ==> r.value.items[k].Msg? && r.value.items[k].inst.cls == inner.fieldType.cls
    ensures r.Failure? ==> inner.fieldType.MessageField? && InitRaises(r.error)
    decreases Depth(v), 3, 0
  {
    if !inner.fieldType.MessageField? then Success(v)
    else if !v.List? then Failure(NotIterable(owner.name, v))
    else
      forall i | 0 <= i < |v.items| ensures Depth(v.items[i]) < Depth(v) {
        ItemDepthBound(v.items, i);
      }
      match MsgValuesFrom(inner.fieldType.cls, v.items, 0, [], Depth(v))
      case Success(ms) => Success(List(ms))
      case Failure(e) => Failure(e)
  }

  function MsgValuesFrom(cls: MsgClass, items: seq<Value>, i: nat, acc: seq<Value>, ghost bound: nat): (r: Result<seq<Value>, ValidationError>)
    requires i <= |items|
    requires forall j :: 0 <= j < |items| ==> Depth(items[j]) < bound
    ensures r.Success? ==> |r.value| == |acc| + |items| - i && r.value[..|acc|] == acc
    ensures r.Success? ==> forall k :: |acc| <= k < |r.value| ==> r.value[k].Msg? && r.value[k].inst.cls == cls
    ensures r.Failure? ==> InitRaises(r.error)
    decreases bound, 0, |items| - i
  {
    if i == |items| then Success(acc)
    else
      match MsgValue(cls, items[i])
      case Failure(e) => Failure(e)
      case Success(m) => MsgValuesFrom(cls, items, i + 1, acc + [m], bound)
  }

  /** `init_from_dict(input)`: for each schema item whose wire name is in
      the input, convert the value and set the attribute. */
  method InitFromDict(inst: Instance, input: Value) returns (r: Instance, err: Option<ValidationError>)
    ensures (r, err) == InitFromDictSpec(inst, input)
    decreases Depth(input), 1, 1
  {
    r := inst;
    if !inst.cls.isMessageBase {
      return r, Some(NoSuchMethod(inst.cls.name, "init_from_dict"));
    }
    var i := 0;
    while i < |inst.cls.schema|
      invariant 0 <= i <= |inst.cls.schema|
      invariant r.cls == inst.cls
      invariant InitFrom(r, input, i) == InitFromDictSpec(inst, input)
    {
      var item := inst.cls.schema[i];
      if item.Pair? {
        return r, Some(SchemaItemUnpack(inst.cls.name));
      }
      if !input.Dict? {
        if !AbsentFromNonMapping(input, item.wire) {
          return r, Some(NotAMapping(inst.cls.name, input));
        }
      } else {
        var found := Lookup(input.entries, Name(item.wire));
        if found.Some? {
          var v := found.value;
          ValueDepthBound(input.entries, v);
          var converted: Result<Value, ValidationError>;
          if item.validator.fieldType.IterableField? {
            converted := GetListValue(inst.cls, item.validator.fieldType.inner, v);
          } else if item.validator.fieldType.MessageField? {
            converted := GetMsgValue(item.validator.fieldType.cls, v);
          } else {
            converted := Success(v);
          }
          if converted.Failure? {
            return r, Some(converted.error);
          }
          r := SetAttr(r, item.attr, converted.value);
        }
      }
      i := i + 1;
    }
    err := None;
  }

  /** `__get_msg_value`. */
  method GetMsgValue(cls: MsgClass, v: Value) returns (r: Result<Value, ValidationError>)
    ensures r == MsgValue(cls, v)
    decreases Depth(v), 2, 1
  {
    var m, err := InitFromDict(NewInstance(cls), v);
    if err.Some? {
      return Failure(err.value);
    }
    return Success(Msg(m));
  }

  /** `__get_list_value`, appending the converted elements one by one. */
  method GetListValue(owner: MsgClass, inner: Validator, v: Value) returns (r: Result<Value, ValidationError>)
    ensures r == ListValue(owner, inner, v)
    decreases Depth(v), 3, 1
  {
    if !inner.fieldType.MessageField? {
      return Success(v);
    }
    if !v.List? {
      return Failure(NotIterable(owner.name, v));
    }
    forall j | 0 <= j < |v.items| ensures Depth(v.items[j]) < Depth(v) {
      ItemDepthBound(v.items, j);
    }
    var value: seq<Value> := [];
    var i := 0;
    while i < |v.items|
      invariant 0 <= i <= |v.items|
      invariant MsgValuesFrom(inner.fieldType.cls, v.items, i, value, Depth(v))
             == MsgValuesFrom(inner.fieldType.cls, v.items, 0, [], Depth(v))
    {
      var m := GetMsgValue(inner.fieldType.cls, v.items[i]);
      if m.Failure? {
        return Failure(m.error);
      }
      value := value + [m.value];
      i := i + 1;
    }
    return Success(List(value));
  }
}
