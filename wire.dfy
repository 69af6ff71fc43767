/** The data the schema engine works on: field validators, schema items,
    message classes, Python values (including message instances) and
    insertion-ordered dictionaries. */
module Wire {
  import opened Wrappers

  /** Length limits read from the node configuration. Their numeric values
      are configuration, not part of this model, so they stay symbolic. */
  datatype Limit =
    | AliasFieldLimit | SignatureFieldLimit | NameFieldLimit | DigestFieldLimit
    | SenderClientFieldLimit | HashFieldLimit | BlsSigLimit

  /** The field validator classes a schema can name, with their construction
      parameters. What each one accepts is abstract (see MessageBase.FieldCheck);
      only `IterableField` and `MessageField` are inspected by the engine. */
  datatype FieldType =
    | NonEmptyStringField
    | LimitedLengthStringField(maxLength: Limit)
    | NonNegativeNumberField
    | EnumField(expectedValues: seq<string>)
    | ChooseField(values: set<string>)
    | IterableField(inner: Validator)
    | MessageField(cls: MsgClass)
    | VerkeyField
    | IdentifierField
    | RoleField
    | NetworkIpAddressField
    | NetworkPortField
    | Base58Field(byteLengths: seq<nat>)
    | LedgerIdField
    | TxnSeqNoField
    | MerkleRootField
    | TimestampField
    | AnyValueField
    | AnyMapField
    | AnyField
    | SerializedValueField
    | RequestIdentifierField
    | LedgerInfoField
    | BlsMultiSignatureField

  /** A validator object: its class with parameters, and the two flags every
      field accepts (both false unless given). */
  datatype Validator = Validator(fieldType: FieldType, optional: bool, nullable: bool)

  /** One entry of a class's `schema` tuple. Most tables use
      (attribute, wire name, validator) triples; several use
      (wire name, validator) pairs, which the engine's triple accessors
      read as if they were triples. */
  datatype SchemaItem =
    | Triple(attr: string, wire: string, validator: Validator)
    | Pair(wire: string, validator: Validator)

  /** A message class: its name (used in error messages), its schema, the
      attributes its no-argument constructor sets (to None), whether it
      derives from MessageBase (or only from MessageValidator), its
      `schema_is_strict` flag, the class attributes the message factory
      reads, and whether it is a subclass of Message or of SignedMessage. */
  datatype MsgClass = MsgClass(
    name: string,
    schema: seq<SchemaItem>,
    initAttrs: seq<string>,
    isMessageBase: bool,
    schemaIsStrict: bool,
    typename: Option<string>,
    version: Option<int>,
    needSignature: Option<bool>,
    isMessage: bool,
    isSignedMessage: bool)

  /** A dictionary key: a string, or (when a pair-shaped schema is read as
      triples) the validator object at the given position of the schema. */
  datatype Key = Name(name: string) | ValidatorObject(index: nat)

  /** A Python value as it appears in a wire dict or a message attribute. */
  datatype Value =
    | Null
    | Bool(b: bool)
    | Int(i: int)
    | Str(s: string)
    | Bytes(bytes: seq<bv8>)
    | List(items: seq<Value>)
    | Dict(entries: seq<(Key, Value)>)
    | Msg(inst: Instance)

  /** A message object: its class and its instance attributes in the order
      they were first set. */
  datatype Instance = Instance(cls: MsgClass, attrs: seq<(string, Value)>)

  // ---------------------------------------------------------------------
  // Insertion-ordered dictionaries as sequences of pairs

  function KeysOf<K, V>(d: seq<(K, V)>): set<K>
  {
    if d == [] then {} else {d[0].0} + KeysOf(d[1..])
  }

  /** The values a dict holds, under any key. */
  function ValuesOf<K, V>(d: seq<(K, V)>): set<V>
  {
    if d == [] then {} else {d[0].1} + ValuesOf(d[1..])
  }

  /** `d.get(k)`: the value stored under `k`, if any. */
  function Lookup<K(==), V>(d: seq<(K, V)>, k: K): (r: Option<V>)
    ensures r.Some? <==> k in KeysOf(d)
    ensures r.Some? ==> (k, r.value) in d && r.value in ValuesOf(d)
  {
    if d == [] then None
    else if d[0].0 == k then Some(d[0].1)
    else
      Lookup(d[1..], k)
  }

  /** `d[k] = v`: an existing key keeps its position and takes the new
      value; a new key is appended. */
  function Put<K(==,!new), V>(d: seq<(K, V)>, k: K, v: V): (r: seq<(K, V)>)
    ensures KeysOf(r) == KeysOf(d) + {k}
    ensures Lookup(r, k) == Some(v)
    ensures forall k' :: k' != k ==> Lookup(r, k') == Lookup(d, k')
    ensures |r| == if k in KeysOf(d) then |d| else |d| + 1
  {
    if d == [] then [(k, v)]
    else if d[0].0 == k then
      assert ([(k, v)] + d[1..])[1..] == d[1..];
      [(k, v)] + d[1..]
    else
      var rest := Put(d[1..], k, v);
      assert ([d[0]] + rest)[1..] == rest;
      [d[0]] + rest
  }

  // ---------------------------------------------------------------------
  // Message instances

  function GetAttr(inst: Instance, a: string): Option<Value>
  {
    Lookup(inst.attrs, a)
  }

  /** `setattr(inst, a, v)`. */
  function SetAttr(inst: Instance, a: string, v: Value): (r: Instance)
    ensures r.cls == inst.cls
    ensures GetAttr(r, a) == Some(v)
    ensures forall b :: b != a ==> GetAttr(r, b) == GetAttr(inst, b)
  {
    inst.(attrs := Put(inst.attrs, a, v))
  }

  function NoneAttrs(names: seq<string>): (r: seq<(string, Value)>)
    ensures forall a :: Lookup(r, a) == if a in names then Some(Null) else None
  {
    if names == [] then []
    else
      var rest := NoneAttrs(names[1..]);
      assert forall a :: a in names <==> a == names[0] || a in names[1..];
      [(names[0], Null)] + rest
  }

  /** `cls()`: a fresh instance whose constructor set each of its
      attributes to None; a class without a constructor sets none. */
  function NewInstance(cls: MsgClass): (r: Instance)
    ensures r.cls == cls
    ensures forall a :: GetAttr(r, a) == if a in cls.initAttrs then Some(Null) else None
  {
    Instance(cls, NoneAttrs(cls.initAttrs))
  }

  /** `isinstance(v, MessageBase)`. */
  predicate IsMessageBase(v: Value)
  {
    v.Msg? && v.inst.cls.isMessageBase
  }

  // ---------------------------------------------------------------------
  // A nesting measure, used only to justify termination

  ghost function Depth(v: Value): nat
  {
    match v
    case List(items) => 1 + MaxDepth(items)
    case Dict(entries) => 1 + MaxEntryDepth(entries)
    case Msg(inst) => 1 + MaxEntryDepth(inst.attrs)
    case _ => 0
  }

  ghost function MaxDepth(items: seq<Value>): nat
  {
    if items == [] then 0
    else
      var d, rest := Depth(items[0]), MaxDepth(items[1..]);
      if d < rest then rest else d
  }

  ghost function EntryDepth<K>(e: (K, Value)): nat
  {
    Depth(e.1)
  }

  ghost function MaxEntryDepth<K>(entries: seq<(K, Value)>): nat
  {
    if entries == [] then 0
    else
      var d, rest := EntryDepth(entries[0]), MaxEntryDepth(entries[1..]);
      if d < rest then rest else d
  }

  lemma {:induction false} ItemDepthBound(items: seq<Value>, i: nat)
    requires i < |items|
    ensures Depth(items[i]) <= MaxDepth(items)
  {
    if i > 0 {
      ItemDepthBound(items[1..], i - 1);
    }
  }

  lemma {:induction false} EntryDepthBound<K>(entries: seq<(K, Value)>, i: nat)
    requires i < |entries|
    ensures Depth(entries[i].1) <= MaxEntryDepth(entries)
  {
    if i > 0 {
      EntryDepthBound(entries[1..], i - 1);
    }
  }

  /** Every value of a dict built from an instance's attributes is
      shallower than the instance itself. */
  lemma {:induction false} ValuesFromAttrsBound<K>(entries: seq<(K, Value)>, inst: Instance)
    requires forall i :: 0 <= i < |entries| ==> entries[i].1 in ValuesOf(inst.attrs)
    ensures MaxEntryDepth(entries) < Depth(Msg(inst))
  {
    if entries != [] {
      ValueDepthBound(inst.attrs, entries[0].1);
      assert forall i :: 0 <= i < |entries[1..]| ==> entries[1..][i] == entries[i + 1];
      ValuesFromAttrsBound(entries[1..], inst);
    }
  }

  lemma {:induction false} ValueDepthBound<K>(entries: seq<(K, Value)>, v: Value)
    requires v in ValuesOf(entries)
    ensures Depth(v) <= MaxEntryDepth(entries)
  {
    if entries[0].1 != v {
      ValueDepthBound(entries[1..], v);
    }
  }
}
