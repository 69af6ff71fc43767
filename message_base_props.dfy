/** What the schema engine guarantees: the order of the checks in
    `validate_fields_with_schema`, what `validate` can and cannot report,
    how `validator_schema`, `_as_dict` and `to_dict` treat duplicate wire
    names, and what `init_from_dict` changes. */
module MessageBaseProps {
  import opened Wrappers
  import opened Wire
  import opened MessageBase

  // ---------------------------------------------------------------------
  // validate_fields_with_schema

  /** The required wire names a dict lacks. */
  function Missing(schema: SchemaDict, entries: seq<(Key, Value)>): set<string>
  {
    RequiredNames(schema) - NamesOf(KeysOf(entries))
  }

  predicate KnownKey(schema: SchemaDict, k: Key)
  {
    k.Name? && k.name in schema
  }

  /** The messages a value holds directly, or as elements of a list, validate. */
  predicate NestedValid(v: Value, fc: FieldCheck)
  {
    (IsMessageBase(v) ==> Validate(v.inst, fc).Pass?) &&
    (v.List? ==> forall j :: 0 <= j < |v.items| && IsMessageBase(v.items[j]) ==> Validate(v.items[j].inst, fc).Pass?)
  }

  /** The loop body lets an item through: an unknown key under a lenient
      schema, or a known key whose validator gives no reason and whose
      nested messages validate. */
  predicate EntryAccepted(cls: MsgClass, schema: SchemaDict, e: (Key, Value), fc: FieldCheck)
  {
    if !KnownKey(schema, e.0) then !cls.schemaIsStrict
    else !Rejects(fc(schema[e.0.name], e.1)) && NestedValid(e.1, fc)
  }

  /** The loop body's outcome on one item. */
  function EntryOutcome(cls: MsgClass, schema: SchemaDict, e: (Key, Value), fc: FieldCheck): Outcome<ValidationError>
  {
    CheckEntry(cls, schema, e, fc, Depth(e.1) + 1)
  }

  /** Messages in a list are validated in order and the first failure is
      the list's failure. */
  lemma {:induction false} ValidateItemsFirstFailure(items: seq<Value>, fc: FieldCheck, bound: nat)
    requires forall i :: 0 <= i < |items| ==> Depth(items[i]) < bound
    ensures ValidateItems(items, fc, bound).Pass? <==>
      forall j :: 0 <= j < |items| && IsMessageBase(items[j]) ==> Validate(items[j].inst, fc).Pass?
    ensures ValidateItems(items, fc, bound).Fail? ==>
      exists j :: 0 <= j < |items| && IsMessageBase(items[j]) &&
        ValidateItems(items, fc, bound) == Validate(items[j].inst, fc) &&
        forall k :: 0 <= k < j && IsMessageBase(items[k]) ==> Validate(items[k].inst, fc).Pass?
    decreases |items|
  {
    if items != [] {
      var rest := items[1..];
      ValidateItemsFirstFailure(rest, fc, bound);
      assert forall j :: 1 <= j < |items| ==> rest[j - 1] == items[j];
      if !(IsMessageBase(items[0]) && Validate(items[0].inst, fc).Fail?) {
        var r := ValidateItems(rest, fc, bound);
        assert ValidateItems(items, fc, bound) == r;
        if r.Fail? {
          var j :| 0 <= j < |rest| && IsMessageBase(rest[j]) && r == Validate(rest[j].inst, fc) &&
            forall k :: 0 <= k < j && IsMessageBase(rest[k]) ==> Validate(rest[k].inst, fc).Pass?;
          assert IsMessageBase(items[j + 1]) && r == Validate(items[j + 1].inst, fc);
        }
      }
    }
  }

  /** The loop body checks, in this order: unknown key (an error only under
      a strict schema), the field validator's reason, the nested message,
      then the messages of a listed value (the first failing one). */
  lemma EntryOutcomeOrder(cls: MsgClass, schema: SchemaDict, e: (Key, Value), fc: FieldCheck)
    ensures EntryOutcome(cls, schema, e, fc).Pass? <==> EntryAccepted(cls, schema, e, fc)
    ensures !KnownKey(schema, e.0) ==>
      EntryOutcome(cls, schema, e, fc) == if cls.schemaIsStrict then Fail(UnknownField(cls.name, e.0, e.1)) else Pass
    ensures KnownKey(schema, e.0) && Rejects(fc(schema[e.0.name], e.1)) ==>
      EntryOutcome(cls, schema, e, fc) == Fail(InvalidField(cls.name, e.0, e.1, fc(schema[e.0.name], e.1).value))
    ensures KnownKey(schema, e.0) && !Rejects(fc(schema[e.0.name], e.1)) && IsMessageBase(e.1) ==>
      EntryOutcome(cls, schema, e, fc) == Validate(e.1.inst, fc)
    ensures KnownKey(schema, e.0) && !Rejects(fc(schema[e.0.name], e.1)) && e.1.List? &&
            EntryOutcome(cls, schema, e, fc).Fail? ==>
      exists j :: 0 <= j < |e.1.items| && IsMessageBase(e.1.items[j]) &&
        EntryOutcome(cls, schema, e, fc) == Validate(e.1.items[j].inst, fc)
  {
    var v := e.1;
    if KnownKey(schema, e.0) && !Rejects(fc(schema[e.0.name], v)) && v.List? {
      forall i | 0 <= i < |v.items| ensures Depth(v.items[i]) < Depth(v) {
        ItemDepthBound(v.items, i);
      }
      ValidateItemsFirstFailure(v.items, fc, Depth(v));
    }
  }

  lemma CheckEntryAnyBound(cls: MsgClass, schema: SchemaDict, e: (Key, Value), fc: FieldCheck, bound: nat)
    requires Depth(e.1) < bound
    ensures CheckEntry(cls, schema, e, fc, bound) == EntryOutcome(cls, schema, e, fc)
  {
  }

  /** Items are checked in dict order; the loop passes exactly when every
      item is accepted, and otherwise fails with the first item's failure. */
  lemma {:induction false} CheckEntriesFirstFailure(cls: MsgClass, schema: SchemaDict, entries: seq<(Key, Value)>, fc: FieldCheck, bound: nat)
    requires forall i :: 0 <= i < |entries| ==> Depth(entries[i].1) < bound
    ensures CheckEntries(cls, schema, entries, fc, bound).Pass? <==>
      forall i :: 0 <= i < |entries| ==> EntryAccepted(cls, schema, entries[i], fc)
    ensures CheckEntries(cls, schema, entries, fc, bound).Fail? ==>
      exists i :: 0 <= i < |entries| &&
        CheckEntries(cls, schema, entries, fc, bound) == EntryOutcome(cls, schema, entries[i], fc) &&
        forall j :: 0 <= j < i ==> EntryAccepted(cls, schema, entries[j], fc)
    decreases |entries|
  {
    if entries != [] {
      CheckEntryAnyBound(cls, schema, entries[0], fc, bound);
      EntryOutcomeOrder(cls, schema, entries[0], fc);
      CheckEntriesFirstFailure(cls, schema, entries[1..], fc, bound);
      assert forall j :: 1 <= j < |entries| ==> entries[1..][j - 1] == entries[j];
      var r := CheckEntries(cls, schema, entries, fc, bound);
      if r.Fail? && EntryAccepted(cls, schema, entries[0], fc) {
        var i :| 0 <= i < |entries[1..]| &&
          CheckEntries(cls, schema, entries[1..], fc, bound) == EntryOutcome(cls, schema, entries[1..][i], fc) &&
          forall j :: 0 <= j < i ==> EntryAccepted(cls, schema, entries[1..][j], fc);
        assert r == EntryOutcome(cls, schema, entries[i + 1], fc);
      }
    }
  }

  /** `validate_fields_with_schema` runs its checks in order: the type of
      the input, then every missing required field at once (before any
      validator runs, so the verdict does not depend on the validators),
      then the items in dict order. */
  lemma ValidateFieldsOrder(cls: MsgClass, schema: SchemaDict, x: Value, fc: FieldCheck)
    ensures !x.Dict? ==> ValidateFieldsWithSchema(cls, schema, x, fc) == Fail(InvalidType(cls.name, x))
    ensures x.Dict? && Missing(schema, x.entries) != {} ==>
      ValidateFieldsWithSchema(cls, schema, x, fc) == Fail(MissedFields(cls.name, Missing(schema, x.entries)))
    ensures ValidateFieldsWithSchema(cls, schema, x, fc).Pass? <==>
      x.Dict? && Missing(schema, x.entries) == {} &&
      forall i :: 0 <= i < |x.entries| ==> EntryAccepted(cls, schema, x.entries[i], fc)
    ensures x.Dict? && Missing(schema, x.entries) == {} && ValidateFieldsWithSchema(cls, schema, x, fc).Fail? ==>
      exists i :: 0 <= i < |x.entries| &&
        ValidateFieldsWithSchema(cls, schema, x, fc) == EntryOutcome(cls, schema, x.entries[i], fc) &&
        forall j :: 0 <= j < i ==> EntryAccepted(cls, schema, x.entries[j], fc)
  {
    if x.Dict? && Missing(schema, x.entries) == {} {
      forall i | 0 <= i < |x.entries| ensures Depth(x.entries[i].1) < Depth(x) {
        EntryDepthBound(x.entries, i);
      }
      CheckEntriesFirstFailure(cls, schema, x.entries, fc, Depth(x));
    }
  }

  /** A strict schema passes only dicts whose keys are all in the schema. */
  lemma StrictPassMeansKnownKeys(cls: MsgClass, schema: SchemaDict, x: Value, fc: FieldCheck)
    requires cls.schemaIsStrict
    requires ValidateFieldsWithSchema(cls, schema, x, fc).Pass?
    ensures x.Dict? && forall i :: 0 <= i < |x.entries| ==> KnownKey(schema, x.entries[i].0)
  {
    ValidateFieldsOrder(cls, schema, x, fc);
    assert forall i :: 0 <= i < |x.entries| ==> EntryAccepted(cls, schema, x.entries[i], fc);
  }

  /** The items of a dict whose keys are in the schema, in order. */
  function KnownEntries(schema: SchemaDict, entries: seq<(Key, Value)>): (r: seq<(Key, Value)>)
    ensures forall i :: 0 <= i < |r| ==> KnownKey(schema, r[i].0)
  {
    if entries == [] then []
    else if KnownKey(schema, entries[0].0) then [entries[0]] + KnownEntries(schema, entries[1..])
    else KnownEntries(schema, entries[1..])
  }

  lemma {:induction false} KnownEntriesKeys(schema: SchemaDict, entries: seq<(Key, Value)>, w: string)
    requires w in schema
    ensures Name(w) in KeysOf(KnownEntries(schema, entries)) <==> Name(w) in KeysOf(entries)
  {
    if entries != [] {
      KnownEntriesKeys(schema, entries[1..], w);
      if KnownKey(schema, entries[0].0) {
        assert ([entries[0]] + KnownEntries(schema, entries[1..]))[1..] == KnownEntries(schema, entries[1..]);
      }
    }
  }

  lemma {:induction false} KnownEntriesDepth(schema: SchemaDict, entries: seq<(Key, Value)>, bound: nat)
    requires forall i :: 0 <= i < |entries| ==> Depth(entries[i].1) < bound
    ensures forall i :: 0 <= i < |KnownEntries(schema, entries)| ==> Depth(KnownEntries(schema, entries)[i].1) < bound
  {
    if entries != [] {
      KnownEntriesDepth(schema, entries[1..], bound);
      assert forall j :: 1 <= j < |entries| ==> entries[1..][j - 1] == entries[j];
    }
  }

  lemma {:induction false} LenientSkipsUnknown(cls: MsgClass, schema: SchemaDict, entries: seq<(Key, Value)>, fc: FieldCheck, bound: nat)
    requires !cls.schemaIsStrict
    requires forall i :: 0 <= i < |entries| ==> Depth(entries[i].1) < bound
    requires forall i :: 0 <= i < |KnownEntries(schema, entries)| ==> Depth(KnownEntries(schema, entries)[i].1) < bound
    ensures CheckEntries(cls, schema, entries, fc, bound) == CheckEntries(cls, schema, KnownEntries(schema, entries), fc, bound)
  {
    if entries != [] {
      assert forall j :: 1 <= j < |entries| ==> entries[1..][j - 1] == entries[j];
      KnownEntriesDepth(schema, entries[1..], bound);
      LenientSkipsUnknown(cls, schema, entries[1..], fc, bound);
      if KnownKey(schema, entries[0].0) {
        assert ([entries[0]] + KnownEntries(schema, entries[1..]))[1..] == KnownEntries(schema, entries[1..]);
      }
    }
  }

  lemma {:induction false} CheckEntriesAnyBound(cls: MsgClass, schema: SchemaDict, entries: seq<(Key, Value)>, fc: FieldCheck, b1: nat, b2: nat)
    requires forall i :: 0 <= i < |entries| ==> Depth(entries[i].1) < b1
    requires forall i :: 0 <= i < |entries| ==> Depth(entries[i].1) < b2
    ensures CheckEntries(cls, schema, entries, fc, b1) == CheckEntries(cls, schema, entries, fc, b2)
  {
    if entries != [] {
      CheckEntryAnyBound(cls, schema, entries[0], fc, b1);
      CheckEntryAnyBound(cls, schema, entries[0], fc, b2);
      assert forall j :: 1 <= j < |entries| ==> entries[1..][j - 1] == entries[j];
      CheckEntriesAnyBound(cls, schema, entries[1..], fc, b1, b2);
    }
  }

  /** Under a lenient schema (`schema_is_strict = False`) a dict validates
      exactly as the same dict with its unknown keys removed. */
  lemma LenientIgnoresUnknownKeys(cls: MsgClass, schema: SchemaDict, entries: seq<(Key, Value)>, fc: FieldCheck)
    requires !cls.schemaIsStrict
    ensures ValidateFieldsWithSchema(cls, schema, Dict(entries), fc) ==
            ValidateFieldsWithSchema(cls, schema, Dict(KnownEntries(schema, entries)), fc)
  {
    var known := KnownEntries(schema, entries);
    forall w | w in schema ensures Name(w) in KeysOf(known) <==> Name(w) in KeysOf(entries) {
      KnownEntriesKeys(schema, entries, w);
    }
    assert Missing(schema, entries) == Missing(schema, known);
    if Missing(schema, entries) == {} {
      forall i | 0 <= i < |entries| ensures Depth(entries[i].1) < Depth(Dict(entries)) {
        EntryDepthBound(entries, i);
      }
      forall i | 0 <= i < |known| ensures Depth(known[i].1) < Depth(Dict(known)) {
        EntryDepthBound(known, i);
      }
      KnownEntriesDepth(schema, entries, Depth(Dict(entries)));
      LenientSkipsUnknown(cls, schema, entries, fc, Depth(Dict(entries)));
      CheckEntriesAnyBound(cls, schema, known, fc, Depth(Dict(entries)), Depth(Dict(known)));
    }
  }

  // ---------------------------------------------------------------------
  // validator_schema and _as_dict

  /** The wire names of the triples from position i on. */
  function WiresFrom(schema: seq<SchemaItem>, i: nat): set<string>
  {
    set j | i <= j < |schema| && schema[j].Triple? :: schema[j].wire
  }

  /** The keys `_as_dict` writes for the items from position i on. */
  function KeysFrom(schema: seq<SchemaItem>, i: nat): set<Key>
  {
    set j | i <= j < |schema| :: ItemKey(schema[j], j)
  }

  lemma {:induction false} SchemaDictFromSpec(schema: seq<SchemaItem>, i: nat, acc: SchemaDict)
    requires i <= |schema|
    ensures SchemaDictFrom(schema, i, acc).Success? <==> forall j :: i <= j < |schema| ==> schema[j].Triple?
    ensures SchemaDictFrom(schema, i, acc).Success? ==>
      var d := SchemaDictFrom(schema, i, acc).value;
      d.Keys == acc.Keys + WiresFrom(schema, i) &&
      (forall w :: w in acc && w !in WiresFrom(schema, i) ==> d[w] == acc[w]) &&
      (forall w, j :: i <= j && LastWithWire(schema, w, j) ==> d[w] == schema[j].validator)
    decreases |schema| - i
  {
    if i < |schema| && schema[i].Triple? {
      var acc' := acc[schema[i].wire := schema[i].validator];
      SchemaDictFromSpec(schema, i + 1, acc');
      assert WiresFrom(schema, i) == {schema[i].wire} + WiresFrom(schema, i + 1);
      if SchemaDictFrom(schema, i, acc).Success? {
        var d := SchemaDictFrom(schema, i, acc).value;
        forall w, j | i <= j && LastWithWire(schema, w, j) ensures d[w] == schema[j].validator {
          if j == i {
            assert w !in WiresFrom(schema, i + 1);
          }
        }
      }
    } else if i == |schema| {
      assert WiresFrom(schema, i) == {};
    }
  }

  /** `validator_schema` succeeds exactly on an all-triples schema (a pair
      raises IndexError); its keys are the wire names, and a wire name used
      twice keeps the validator of its last item. */
  lemma ValidatorSchemaShape(cls: MsgClass)
    ensures ValidatorSchema(cls).Success? <==> AllTriples(cls.schema)
    ensures ValidatorSchema(cls).Failure? ==> ValidatorSchema(cls).error == SchemaItemIndex(cls.name)
    ensures ValidatorSchema(cls).Success? ==>
      ValidatorSchema(cls).value.Keys == WiresFrom(cls.schema, 0) &&
      forall w, j: nat :: LastWithWire(cls.schema, w, j) ==> ValidatorSchema(cls).value[w] == cls.schema[j].validator
  {
    SchemaDictFromSpec(cls.schema, 0, map[]);
  }

  lemma {:induction false} AsDictFromSucceeds(inst: Instance, i: nat, acc: seq<(Key, Value)>)
    requires i <= |inst.cls.schema|
    ensures AsDictFrom(inst, i, acc).Success? <==>
      forall j :: i <= j < |inst.cls.schema| ==> GetAttr(inst, ItemAttr(inst.cls.schema[j])).Some?
    ensures AsDictFrom(inst, i, acc).Failure? ==> AsDictFrom(inst, i, acc).error.AttributeMissing?
    decreases |inst.cls.schema| - i
  {
    var schema := inst.cls.schema;
    if i < |schema| {
      var item := schema[i];
      if GetAttr(inst, ItemAttr(item)).None? {
        assert AsDictFrom(inst, i, acc) == Failure(AttributeMissing(inst.cls.name, ItemAttr(item)));
      } else {
        var v := GetAttr(inst, ItemAttr(item)).value;
        var acc' := Put(acc, ItemKey(item, i), v);
        assert AsDictFrom(inst, i, acc) == AsDictFrom(inst, i + 1, acc');
        AsDictFromSucceeds(inst, i + 1, acc');
      }
    }
  }

  lemma {:induction false} AsDictFromKeys(inst: Instance, i: nat, acc: seq<(Key, Value)>)
    requires i <= |inst.cls.schema|
    requires AsDictFrom(inst, i, acc).Success?
    ensures KeysOf(AsDictFrom(inst, i, acc).value) == KeysOf(acc) + KeysFrom(inst.cls.schema, i)
    decreases |inst.cls.schema| - i
  {
    var schema := inst.cls.schema;
    KeysFromStep(schema, i);
    if i < |schema| {
      var v := GetAttr(inst, ItemAttr(schema[i])).value;
      AsDictFromKeys(inst, i + 1, Put(acc, ItemKey(schema[i], i), v));
    }
  }

  lemma {:induction false} AsDictFromLookup(inst: Instance, i: nat, acc: seq<(Key, Value)>)
    requires i <= |inst.cls.schema|
    requires AsDictFrom(inst, i, acc).Success?
    ensures forall w, j: nat :: i <= j && LastWithWire(inst.cls.schema, w, j) ==>
      Lookup(AsDictFrom(inst, i, acc).value, Name(w)) == GetAttr(inst, inst.cls.schema[j].attr)
    decreases |inst.cls.schema| - i
  {
    var schema := inst.cls.schema;
    if i < |schema| {
      var v := GetAttr(inst, ItemAttr(schema[i])).value;
      var acc' := Put(acc, ItemKey(schema[i], i), v);
      AsDictFromLookup(inst, i + 1, acc');
      var d := AsDictFrom(inst, i, acc).value;
      assert d == AsDictFrom(inst, i + 1, acc').value;
      forall w, j: nat | i <= j && LastWithWire(schema, w, j)
        ensures Lookup(d, Name(w)) == GetAttr(inst, schema[j].attr)
      {
        if j == i {
          AsDictFromUntouched(inst, i + 1, acc', Name(w));
        }
      }
    }
  }

  /** A key no later item writes keeps its value. */
  lemma {:induction false} AsDictFromUntouched(inst: Instance, i: nat, acc: seq<(Key, Value)>, k: Key)
    requires i <= |inst.cls.schema|
    requires AsDictFrom(inst, i, acc).Success?
    requires forall j :: i <= j < |inst.cls.schema| ==> ItemKey(inst.cls.schema[j], j) != k
    ensures Lookup(AsDictFrom(inst, i, acc).value, k) == Lookup(acc, k)
    decreases |inst.cls.schema| - i
  {
    var schema := inst.cls.schema;
    if i < |schema| {
      var v := GetAttr(inst, ItemAttr(schema[i])).value;
      AsDictFromUntouched(inst, i + 1, Put(acc, ItemKey(schema[i], i), v), k);
    }
  }

  /** `_as_dict` succeeds exactly when every schema attribute is set; its
      keys are the items' `schema_item[1]`, and a wire name used twice holds
      the attribute of its last item. */
  lemma AsDictShape(inst: Instance)
    ensures AsDict(inst).Success? <==>
      forall j :: 0 <= j < |inst.cls.schema| ==> GetAttr(inst, ItemAttr(inst.cls.schema[j])).Some?
    ensures AsDict(inst).Success? ==>
      KeysOf(AsDict(inst).value) == KeysFrom(inst.cls.schema, 0) &&
      forall w, j: nat :: LastWithWire(inst.cls.schema, w, j) ==>
        Lookup(AsDict(inst).value, Name(w)) == GetAttr(inst, inst.cls.schema[j].attr)
  {
    AsDictFromSucceeds(inst, 0, []);
    if AsDict(inst).Success? {
      AsDictFromKeys(inst, 0, []);
      AsDictFromLookup(inst, 0, []);
    }
  }

  lemma KeysFromStep(schema: seq<SchemaItem>, i: nat)
    requires i <= |schema|
    ensures i == |schema| ==> KeysFrom(schema, i) == {}
    ensures i < |schema| ==> KeysFrom(schema, i) == {ItemKey(schema[i], i)} + KeysFrom(schema, i + 1)
  {
  }

  lemma {:induction false} KeysOfIndex<K, V>(d: seq<(K, V)>, i: nat)
    requires i < |d|
    ensures d[i].0 in KeysOf(d)
  {
    if i > 0 {
      KeysOfIndex(d[1..], i - 1);
    }
  }

  // ---------------------------------------------------------------------
  // validate

  /** An outcome that reports the shape of the dict rather than its values. */
  predicate ReportsShape(o: Outcome<ValidationError>)
  {
    o.Fail? && (o.error.InvalidType? || o.error.MissedFields? || o.error.UnknownField?)
  }

  /** `validate()` builds its dict from the schema itself, so neither it nor
      any nested validation ever reports a non-dict, a missing field or an
      unknown field. */
  lemma ValidateNoShapeErrors(inst: Instance, fc: FieldCheck)
    ensures !ReportsShape(Validate(inst, fc))
    decreases Depth(Msg(inst)), 2, 0
  {
    AsDictFromSucceeds(inst, 0, []);
    ValidatorSchemaShape(inst.cls);
    if inst.cls.isMessageBase && AsDict(inst).Success? && ValidatorSchema(inst.cls).Success? {
      var d := AsDict(inst).value;
      var schema := ValidatorSchema(inst.cls).value;
      AsDictHasRequired(inst);
      AsDictKeysKnown(inst);
      ValuesFromAttrsBound(d, inst);
      forall i | 0 <= i < |d| ensures Depth(d[i].1) < Depth(Dict(d)) {
        EntryDepthBound(d, i);
      }
      CheckEntriesNoShape(inst.cls, schema, d, fc, Depth(Dict(d)));
    }
  }

  /** The dict `_as_dict` builds holds every wire name `validator_schema`
      requires. */
  lemma AsDictHasRequired(inst: Instance)
    requires AsDict(inst).Success? && ValidatorSchema(inst.cls).Success?
    ensures Missing(ValidatorSchema(inst.cls).value, AsDict(inst).value) == {}
  {
    var d := AsDict(inst).value;
    var schema := ValidatorSchema(inst.cls).value;
    var items := inst.cls.schema;
    AsDictShape(inst);
    ValidatorSchemaShape(inst.cls);
    forall w | w in RequiredNames(schema) ensures w in NamesOf(KeysOf(d)) {
      var j :| 0 <= j < |items| && items[j].Triple? && items[j].wire == w;
      assert ItemKey(items[j], j) == Name(w);
    }
  }

  /** Every key of the dict `_as_dict` builds is a wire name of
      `validator_schema`. */
  lemma AsDictKeysKnown(inst: Instance)
    requires AsDict(inst).Success? && ValidatorSchema(inst.cls).Success?
    ensures forall i :: 0 <= i < |AsDict(inst).value| ==> KnownKey(ValidatorSchema(inst.cls).value, AsDict(inst).value[i].0)
  {
    var d := AsDict(inst).value;
    var items := inst.cls.schema;
    AsDictShape(inst);
    ValidatorSchemaShape(inst.cls);
    forall i | 0 <= i < |d| ensures KnownKey(ValidatorSchema(inst.cls).value, d[i].0) {
      KeysOfIndex(d, i);
      var j :| 0 <= j < |items| && ItemKey(items[j], j) == d[i].0;
      assert items[j].Triple?;
    }
  }

  lemma CheckEntriesNoShape(cls: MsgClass, schema: SchemaDict, entries: seq<(Key, Value)>, fc: FieldCheck, bound: nat)
    requires forall i :: 0 <= i < |entries| ==> Depth(entries[i].1) < bound
    requires forall i :: 0 <= i < |entries| ==> KnownKey(schema, entries[i].0)
    ensures !ReportsShape(CheckEntries(cls, schema, entries, fc, bound))
    decreases bound, 0, |entries|
  {
    if entries != [] {
      CheckEntryNoShape(cls, schema, entries[0], fc, bound);
      assert forall j :: 1 <= j < |entries| ==> entries[1..][j - 1] == entries[j];
      CheckEntriesNoShape(cls, schema, entries[1..], fc, bound);
    }
  }

  lemma CheckEntryNoShape(cls: MsgClass, schema: SchemaDict, e: (Key, Value), fc: FieldCheck, bound: nat)
    requires Depth(e.1) < bound
    requires KnownKey(schema, e.0)
    ensures !ReportsShape(CheckEntry(cls, schema, e, fc, bound))
    decreases bound, 0, 0
  {
    var v := e.1;
    if !Rejects(fc(schema[e.0.name], v)) {
      if IsMessageBase(v) {
        ValidateNoShapeErrors(v.inst, fc);
      } else if v.List? {
        forall i | 0 <= i < |v.items| ensures Depth(v.items[i]) < Depth(v) {
          ItemDepthBound(v.items, i);
        }
        ValidateItemsNoShape(v.items, fc, Depth(v));
      }
    }
  }

  lemma ValidateItemsNoShape(items: seq<Value>, fc: FieldCheck, bound: nat)
    requires forall i :: 0 <= i < |items| ==> Depth(items[i]) < bound
    ensures !ReportsShape(ValidateItems(items, fc, bound))
    decreases bound, 0, |items|
  {
    if items != [] {
      if IsMessageBase(items[0]) {
        ValidateNoShapeErrors(items[0].inst, fc);
      }
      ValidateItemsNoShape(items[1..], fc, bound);
    }
  }

  /** A class whose schema holds a (wire name, validator) pair can never
      validate: `_as_dict` finds no attribute named after the wire name, or
      `validator_schema` indexes past the end of the pair. */
  lemma PairSchemaNeverValidates(inst: Instance, fc: FieldCheck)
    requires inst.cls.isMessageBase && !AllTriples(inst.cls.schema)
    ensures Validate(inst, fc).Fail?
    ensures Validate(inst, fc).error.AttributeMissing? || Validate(inst, fc).error == SchemaItemIndex(inst.cls.name)
  {
    ValidatorSchemaShape(inst.cls);
    AsDictFromSucceeds(inst, 0, []);
  }

  // ---------------------------------------------------------------------
  // init_from_dict

  /** Some triple from position i on names attribute `a` and has its wire
      name among the keys of the input dict. */
  predicate SetFromInput(schema: seq<SchemaItem>, input: Value, i: nat, a: string)
  {
    input.Dict? &&
    exists j :: i <= j < |schema| && schema[j].Triple? && schema[j].attr == a &&
      Name(schema[j].wire) in KeysOf(input.entries)
  }

  lemma {:induction false} InitFromFrame(inst: Instance, input: Value, i: nat)
    requires i <= |inst.cls.schema|
    ensures InitFrom(inst, input, i).0.cls == inst.cls
    ensures forall a :: !SetFromInput(inst.cls.schema, input, i, a) ==>
      GetAttr(InitFrom(inst, input, i).0, a) == GetAttr(inst, a)
    ensures InitFrom(inst, input, i).1.None? ==>
      forall j :: i <= j < |inst.cls.schema| ==> inst.cls.schema[j].Triple?
    decreases |inst.cls.schema| - i, 1
  {
    var schema := inst.cls.schema;
    if i < |schema| && schema[i].Triple? {
      var item := schema[i];
      if !input.Dict? {
        if AbsentFromNonMapping(input, item.wire) {
          InitFromFrame(inst, input, i + 1);
        }
      } else if Lookup(input.entries, Name(item.wire)).Some? {
        InitFromFrameSet(inst, input, i);
      } else {
        InitFromFrame(inst, input, i + 1);
      }
    }
  }

  /** The step of InitFromFrame where the item's input value is converted
      and stored. */
  lemma {:induction false} InitFromFrameSet(inst: Instance, input: Value, i: nat)
    requires i < |inst.cls.schema| && inst.cls.schema[i].Triple? && input.Dict?
    requires Lookup(input.entries, Name(inst.cls.schema[i].wire)).Some?
    ensures InitFrom(inst, input, i).0.cls == inst.cls
    ensures forall a :: !SetFromInput(inst.cls.schema, input, i, a) ==>
      GetAttr(InitFrom(inst, input, i).0, a) == GetAttr(inst, a)
    ensures InitFrom(inst, input, i).1.None? ==>
      forall j :: i <= j < |inst.cls.schema| ==> inst.cls.schema[j].Triple?
    decreases |inst.cls.schema| - i, 0
  {
    var schema := inst.cls.schema;
    var item := schema[i];
    var v := Lookup(input.entries, Name(item.wire)).value;
    ValueDepthBound(input.entries, v);
    var c := ConvertValue(inst.cls, item.validator, v);
    if c.Success? {
      var next := SetAttr(inst, item.attr, c.value);
      assert InitFrom(inst, input, i) == InitFrom(next, input, i + 1);
      InitFromFrame(next, input, i + 1);
      forall a | !SetFromInput(schema, input, i, a)
        ensures GetAttr(InitFrom(inst, input, i).0, a) == GetAttr(inst, a)
      {
        assert a != item.attr;
      }
    }
  }

  /** The wire value `init_from_dict` reads for a triple. */
  function InputValue(input: Value, item: SchemaItem): Value
    requires input.Dict? && item.Triple? && Name(item.wire) in KeysOf(input.entries)
  {
    Lookup(input.entries, Name(item.wire)).value
  }

  /** The last triple for an attribute whose wire name the input holds. */
  predicate LastSetter(schema: seq<SchemaItem>, input: Value, j: nat)
  {
    j < |schema| && schema[j].Triple? && input.Dict? &&
    Name(schema[j].wire) in KeysOf(input.entries) &&
    !SetFromInput(schema, input, j + 1, schema[j].attr)
  }

  lemma {:induction false} InitFromSets(inst: Instance, input: Value, i: nat)
    requires i <= |inst.cls.schema|
    requires InitFrom(inst, input, i).1.None?
    ensures forall j: nat :: i <= j && LastSetter(inst.cls.schema, input, j) ==>
      var item := inst.cls.schema[j];
      ConvertValue(inst.cls, item.validator, InputValue(input, item)).Success? &&
      GetAttr(InitFrom(inst, input, i).0, item.attr) ==
        Some(ConvertValue(inst.cls, item.validator, InputValue(input, item)).value)
    decreases |inst.cls.schema| - i
  {
    var schema := inst.cls.schema;
    if i < |schema| {
      var item := schema[i];
      if !input.Dict? {
        InitFromSets(inst, input, i + 1);
      } else if Lookup(input.entries, Name(item.wire)).Some? {
        var v := Lookup(input.entries, Name(item.wire)).value;
        ValueDepthBound(input.entries, v);
        var next := SetAttr(inst, item.attr, ConvertValue(inst.cls, item.validator, v).value);
        InitFromSets(next, input, i + 1);
        InitFromFrame(next, input, i + 1);
      } else {
        InitFromSets(inst, input, i + 1);
      }
    }
  }

  /** `init_from_dict` changes only attributes whose wire names the input
      holds, and on a run that raises nothing each such attribute holds the
      converted input value of its last triple. A schema with a pair in it
      always raises (a pair cannot be unpacked into three names); items set
      before an exception stay set. */
  lemma InitFromDictEffect(inst: Instance, input: Value)
    requires inst.cls.isMessageBase
    ensures InitFromDictSpec(inst, input).0.cls == inst.cls
    ensures forall a :: !SetFromInput(inst.cls.schema, input, 0, a) ==>
      GetAttr(InitFromDictSpec(inst, input).0, a) == GetAttr(inst, a)
    ensures !AllTriples(inst.cls.schema) ==> InitFromDictSpec(inst, input).1.Some?
    ensures InitFromDictSpec(inst, input).1.None? ==>
      forall j: nat :: LastSetter(inst.cls.schema, input, j) ==>
        var item := inst.cls.schema[j];
        ConvertValue(inst.cls, item.validator, InputValue(input, item)).Success? &&
        GetAttr(InitFromDictSpec(inst, input).0, item.attr) ==
          Some(ConvertValue(inst.cls, item.validator, InputValue(input, item)).value)
  {
    InitFromFrame(inst, input, 0);
    if InitFromDictSpec(inst, input).1.None? {
      InitFromSets(inst, input, 0);
    }
  }

  /** InitFromDictEffect for one attribute: the value of its last triple. */
  lemma InitFromDictSetsLast(inst: Instance, input: Value, j: nat)
    requires inst.cls.isMessageBase && InitFromDictSpec(inst, input).1.None?
    requires LastSetter(inst.cls.schema, input, j)
    ensures var item := inst.cls.schema[j];
      ConvertValue(inst.cls, item.validator, InputValue(input, item)).Success? &&
      GetAttr(InitFromDictSpec(inst, input).0, item.attr) ==
        Some(ConvertValue(inst.cls, item.validator, InputValue(input, item)).value)
  {
    InitFromDictEffect(inst, input);
  }

  /** `__get_msg_value` returns a fresh instance of exactly the field's
      class: what its constructor set, overwritten by the input's items. */
  lemma MsgValueFresh(cls: MsgClass, v: Value)
    ensures MsgValue(cls, v).Success? ==>
      MsgValue(cls, v).value.Msg? && MsgValue(cls, v).value.inst.cls == cls &&
      forall a :: !SetFromInput(cls.schema, v, 0, a) ==>
        GetAttr(MsgValue(cls, v).value.inst, a) == if a in cls.initAttrs then Some(Null) else None
  {
    if cls.isMessageBase {
      InitFromFrame(NewInstance(cls), v, 0);
    }
  }

  lemma {:induction false} MsgValuesFromSpec(cls: MsgClass, items: seq<Value>, i: nat, acc: seq<Value>, bound: nat)
    requires i <= |items|
    requires forall j :: 0 <= j < |items| ==> Depth(items[j]) < bound
    ensures MsgValuesFrom(cls, items, i, acc, bound).Success? ==>
      var r := MsgValuesFrom(cls, items, i, acc, bound).value;
      |r| == |acc| + |items| - i && r[..|acc|] == acc &&
      forall k :: i <= k < |items| ==> MsgValue(cls, items[k]) == Success(r[|acc| + k - i])
    ensures MsgValuesFrom(cls, items, i, acc, bound).Failure? ==>
      exists k :: i <= k < |items| && MsgValue(cls, items[k]) == Failure(MsgValuesFrom(cls, items, i, acc, bound).error)
    decreases |items| - i
  {
    if i < |items| && MsgValue(cls, items[i]).Success? {
      var m := MsgValue(cls, items[i]).value;
      MsgValuesFromSpec(cls, items, i + 1, acc + [m], bound);
      if MsgValuesFrom(cls, items, i, acc, bound).Success? {
        var r := MsgValuesFrom(cls, items, i, acc, bound).value;
        assert r[..|acc| + 1] == acc + [m];
        assert r[..|acc|] == (acc + [m])[..|acc|];
      }
    }
  }

  /** `__get_list_value`: for an iterable of message fields, a list of fresh
      instances, one per input element and in input order (the first
      element that fails aborts the list); any other iterable is stored as
      given. */
  lemma ListValueInOrder(owner: MsgClass, inner: Validator, v: Value)
    ensures !inner.fieldType.MessageField? ==> ListValue(owner, inner, v) == Success(v)
    ensures inner.fieldType.MessageField? && ListValue(owner, inner, v).Success? ==>
      v.List? && ListValue(owner, inner, v).value.List? &&
      |ListValue(owner, inner, v).value.items| == |v.items| &&
      forall k :: 0 <= k < |v.items| ==>
        MsgValue(inner.fieldType.cls, v.items[k]) == Success(ListValue(owner, inner, v).value.items[k])
    ensures inner.fieldType.MessageField? && ListValue(owner, inner, v).Failure? ==>
      !v.List? ||
      exists k :: 0 <= k < |v.items| && MsgValue(inner.fieldType.cls, v.items[k]) == Failure(ListValue(owner, inner, v).error)
  {
    if inner.fieldType.MessageField? && v.List? {
      forall i | 0 <= i < |v.items| ensures Depth(v.items[i]) < Depth(v) {
        ItemDepthBound(v.items, i);
      }
      MsgValuesFromSpec(inner.fieldType.cls, v.items, 0, [], Depth(v));
    }
  }

  // ---------------------------------------------------------------------
  // to_dict

  /** The value `to_dict` stores for an attribute: a message's own dict,
      anything else as it is. */
  predicate ToDictStores(attr: Value, stored: Value)
  {
    if IsMessageBase(attr) then ToDictSpec(attr.inst).Success? && stored == Dict(ToDictSpec(attr.inst).value)
    else stored == attr
  }

  /** One successful step of `to_dict`'s loop, and the value it stores. */
  lemma ToDictFromStep(inst: Instance, i: nat, acc: seq<(Key, Value)>) returns (stored: Value)
    requires i < |inst.cls.schema|
    requires ToDictFrom(inst, i, acc).Success?
    ensures GetAttr(inst, ItemAttr(inst.cls.schema[i])).Some?
    ensures ToDictStores(GetAttr(inst, ItemAttr(inst.cls.schema[i])).value, stored)
    ensures ToDictFrom(inst, i, acc) == ToDictFrom(inst, i + 1, Put(acc, ItemKey(inst.cls.schema[i], i), stored))
  {
    var v := GetAttr(inst, ItemAttr(inst.cls.schema[i])).value;
    stored := if IsMessageBase(v) then Dict(ToDictSpec(v.inst).value) else v;
  }

  lemma {:induction false} ToDictFromKeys(inst: Instance, i: nat, acc: seq<(Key, Value)>)
    requires i <= |inst.cls.schema|
    requires ToDictFrom(inst, i, acc).Success?
    ensures KeysOf(ToDictFrom(inst, i, acc).value) == KeysOf(acc) + KeysFrom(inst.cls.schema, i)
    decreases |inst.cls.schema| - i
  {
    var schema := inst.cls.schema;
    KeysFromStep(schema, i);
    if i < |schema| {
      var stored := ToDictFromStep(inst, i, acc);
      ToDictFromKeys(inst, i + 1, Put(acc, ItemKey(schema[i], i), stored));
    }
  }

  lemma {:induction false} ToDictFromLookup(inst: Instance, i: nat, acc: seq<(Key, Value)>)
    requires i <= |inst.cls.schema|
    requires ToDictFrom(inst, i, acc).Success?
    ensures forall w, j: nat :: i <= j && LastWithWire(inst.cls.schema, w, j) ==>
      GetAttr(inst, inst.cls.schema[j].attr).Some? &&
      Lookup(ToDictFrom(inst, i, acc).value, Name(w)).Some? &&
      ToDictStores(GetAttr(inst, inst.cls.schema[j].attr).value, Lookup(ToDictFrom(inst, i, acc).value, Name(w)).value)
    decreases |inst.cls.schema| - i
  {
    var schema := inst.cls.schema;
    if i < |schema| {
      var item := schema[i];
      var stored := ToDictFromStep(inst, i, acc);
      var acc' := Put(acc, ItemKey(item, i), stored);
      ToDictFromLookup(inst, i + 1, acc');
      forall w, j: nat | i <= j && LastWithWire(schema, w, j)
        ensures GetAttr(inst, schema[j].attr).Some? &&
          Lookup(ToDictFrom(inst, i, acc).value, Name(w)).Some? &&
          ToDictStores(GetAttr(inst, schema[j].attr).value, Lookup(ToDictFrom(inst, i, acc).value, Name(w)).value)
      {
        if j == i {
          ToDictFromUntouched(inst, i + 1, acc', Name(w));
        }
      }
    }
  }

  lemma {:induction false} ToDictFromUntouched(inst: Instance, i: nat, acc: seq<(Key, Value)>, k: Key)
    requires i <= |inst.cls.schema|
    requires ToDictFrom(inst, i, acc).Success?
    requires forall j :: i <= j < |inst.cls.schema| ==> ItemKey(inst.cls.schema[j], j) != k
    ensures Lookup(ToDictFrom(inst, i, acc).value, k) == Lookup(acc, k)
    decreases |inst.cls.schema| - i
  {
    var schema := inst.cls.schema;
    if i < |schema| {
      var item := schema[i];
      var stored := ToDictFromStep(inst, i, acc);
      ToDictFromUntouched(inst, i + 1, Put(acc, ItemKey(item, i), stored), k);
    }
  }

  /** `to_dict` writes one key per schema item, in declaration order; under
      a wire name it stores the attribute of the last item with that name,
      a message converted by its own `to_dict` and anything else (a list of
      messages included) unchanged. */
  lemma ToDictShape(inst: Instance)
    requires ToDictSpec(inst).Success?
    ensures KeysOf(ToDictSpec(inst).value) == KeysFrom(inst.cls.schema, 0)
    ensures forall w, j: nat :: LastWithWire(inst.cls.schema, w, j) ==>
      GetAttr(inst, inst.cls.schema[j].attr).Some? &&
      Lookup(ToDictSpec(inst).value, Name(w)).Some? &&
      ToDictStores(GetAttr(inst, inst.cls.schema[j].attr).value, Lookup(ToDictSpec(inst).value, Name(w)).value)
  {
    ToDictFromKeys(inst, 0, []);
    ToDictFromLookup(inst, 0, []);
  }

  lemma {:induction false} ToDictFromAsDict(inst: Instance, i: nat, acc: seq<(Key, Value)>)
    requires i <= |inst.cls.schema|
    requires forall j :: i <= j < |inst.cls.schema| ==>
      var attr := GetAttr(inst, ItemAttr(inst.cls.schema[j]));
      attr.None? || !IsMessageBase(attr.value)
    ensures ToDictFrom(inst, i, acc) == AsDictFrom(inst, i, acc)
    decreases |inst.cls.schema| - i
  {
    var schema := inst.cls.schema;
    if i < |schema| && GetAttr(inst, ItemAttr(schema[i])).Some? {
      var v := GetAttr(inst, ItemAttr(schema[i])).value;
      ToDictFromAsDict(inst, i + 1, Put(acc, ItemKey(schema[i], i), v));
    }
  }

  /** With no attribute holding a message, `to_dict()` is exactly `_as_dict`. */
  lemma ToDictWithoutNestedMessages(inst: Instance)
    requires inst.cls.isMessageBase
    requires forall j :: 0 <= j < |inst.cls.schema| ==>
      var attr := GetAttr(inst, ItemAttr(inst.cls.schema[j]));
      attr.None? || !IsMessageBase(attr.value)
    ensures ToDictSpec(inst) == AsDict(inst)
  {
    ToDictFromAsDict(inst, 0, []);
  }
}
