/** plenum/common/messages/message_factory.py: the registry of message
    classes keyed by (typename, version). Loading modules by name and
    walking their attributes is not modelled: a module is given as the
    message classes among its attributes, in `dir` (alphabetical) order. */
module MessageRegistry {
  import opened Wrappers
  import opened Wire
  import opened Classes
  import opened NodeMessages
  import opened ClientMessages

  datatype FactoryError =
    | MissingMsgType(msgType: Option<Value>)
    | UnhashableKey(typeValue: Value, versionValue: Value)
    | NoClassesLoaded

  /** `__check_obj_fits(obj)`: the first reason the class cannot be
      registered, or None. */
  function CheckObjFits(c: MsgClass): (r: Option<string>)
    ensures r.Some? ==> r.value in {"must have a non empty 'typename'", "must have a non empty 'version'",
                                    "use a SignedMessage wrapper instead", "must be a subclass of 'Message'"}
    ensures c.typename.None? || c.typename.value == "" ==> r == Some("must have a non empty 'typename'")
  {
    if c.typename.None? || c.typename.value == "" then Some("must have a non empty 'typename'")
    else if c.version.None? then Some("must have a non empty 'version'")
    else if c.needSignature == Some(true) then Some("use a SignedMessage wrapper instead")
    else if !c.isMessage && !c.isSignedMessage then Some("must be a subclass of 'Message'")
    else None
  }

  predicate Fits(c: MsgClass)
  {
    CheckObjFits(c).None?
  }

  /** A class fits exactly when it has a non-empty typename and a version,
      does not demand a signature, and is a Message or SignedMessage. */
  lemma FitsExactly(c: MsgClass)
    ensures Fits(c) <==>
      c.typename.Some? && c.typename.value != "" && c.version.Some? && c.needSignature != Some(true) &&
      (c.isMessage || c.isSignedMessage)
  {
  }

  function KeyOf(c: MsgClass): (string, int)
    requires Fits(c)
  {
    (c.typename.value, c.version.value)
  }

  /** The map `__get_message_classes` builds from one mod. */
  function ClassesSpec(mod: seq<MsgClass>): map<(string, int), MsgClass>
  {
    if mod == [] then map[]
    else
      var c := mod[|mod| - 1];
      var m := ClassesSpec(mod[..|mod| - 1]);
      if Fits(c) then m[KeyOf(c) := c] else m
  }

  /** `c` is the last fitting class of the module with key `k`. */
  predicate LastWithKey(mod: seq<MsgClass>, k: (string, int), j: nat)
  {
    j < |mod| && Fits(mod[j]) && KeyOf(mod[j]) == k &&
    forall i :: j < i < |mod| && Fits(mod[i]) ==> KeyOf(mod[i]) != k
  }

  /** Exactly the fitting classes are registered, each under its own key;
      when several share a key the last in `dir` order wins. */
  lemma {:induction false} ClassesSpecShape(mod: seq<MsgClass>)
    ensures forall k :: k in ClassesSpec(mod) <==>
      exists j :: 0 <= j < |mod| && Fits(mod[j]) && KeyOf(mod[j]) == k
    ensures forall k, j: nat :: LastWithKey(mod, k, j) ==> ClassesSpec(mod)[k] == mod[j]
  {
    if mod != [] {
      var n := |mod| - 1;
      var init := mod[..n];
      ClassesSpecShape(init);
      forall k | k in ClassesSpec(mod)
        ensures exists j :: 0 <= j < |mod| && Fits(mod[j]) && KeyOf(mod[j]) == k
      {
        if !(Fits(mod[n]) && KeyOf(mod[n]) == k) {
          assert k in ClassesSpec(init);
          var j :| 0 <= j < |init| && Fits(init[j]) && KeyOf(init[j]) == k;
          assert mod[j] == init[j];
        }
      }
      forall k | exists j :: 0 <= j < |mod| && Fits(mod[j]) && KeyOf(mod[j]) == k
        ensures k in ClassesSpec(mod)
      {
        var j :| 0 <= j < |mod| && Fits(mod[j]) && KeyOf(mod[j]) == k;
        if j < n {
          assert Fits(init[j]) && KeyOf(init[j]) == k;
        }
      }
      forall k, j: nat | LastWithKey(mod, k, j)
        ensures ClassesSpec(mod)[k] == mod[j]
      {
        if j < n {
          assert LastWithKey(init, k, j);
        }
      }
    }
  }

  /** `__get_message_classes(mod)`. */
  method GetMessageClasses(mod: seq<MsgClass>) returns (classes: map<(string, int), MsgClass>)
    ensures classes == ClassesSpec(mod)
  {
    classes := map[];
    var i := 0;
    while i < |mod|
      invariant 0 <= i <= |mod|
      invariant classes == ClassesSpec(mod[..i])
    {
      assert mod[..i + 1][..i] == mod[..i];
      var c := mod[i];
      if CheckObjFits(c).None? {
        classes := classes[KeyOf(c) := c];
      }
      i := i + 1;
    }
    assert mod[..i] == mod;
  }

  /** What the constructor leaves: the map of the last module (each
      module's map replaces the previous one), which must not be empty. */
  function LoadedClasses(modules: seq<seq<MsgClass>>): Result<map<(string, int), MsgClass>, FactoryError>
  {
    if modules == [] || ClassesSpec(modules[|modules| - 1]) == map[] then Failure(NoClassesLoaded)
    else Success(ClassesSpec(modules[|modules| - 1]))
  }

  /** A Python dict key part: a string type name. */
  function TypeKey(v: Value): Option<string>
  {
    if v.Str? then Some(v.s) else None
  }

  /** A version as a dict key: an int, or a bool (False == 0, True == 1). */
  function VersionKey(v: Value): Option<int>
  {
    match v
    case Int(n) => Some(n)
    case Bool(b) => Some(if b then 1 else 0)
    case _ => None
  }

  predicate Unhashable(v: Value)
  {
    v.List? || v.Dict?
  }

  /** `message_raw.get(MSG_VERSION, 0)`: the version the message carries,
      0 when it has none. */
  function RawVersion(raw: seq<(Key, Value)>): (v: Value)
    ensures Name("MSG_VERSION") in KeysOf(raw) ==> Lookup(raw, Name("MSG_VERSION")) == Some(v)
    ensures Name("MSG_VERSION") !in KeysOf(raw) ==> v == Int(0)
  {
    match Lookup(raw, Name("MSG_VERSION")) case Some(v) => v case None => Int(0)
  }

  class MessageFactory {
    var classes: map<(string, int), MsgClass>

    /** `MessageFactory(class_module_names)`, with the assertion that some
        class was loaded as its precondition. */
    constructor(modules: seq<seq<MsgClass>>)
      requires LoadedClasses(modules).Success?
      ensures classes == LoadedClasses(modules).value
    {
      var loaded: map<(string, int), MsgClass> := map[];
      var i := 0;
      while i < |modules|
        invariant 0 <= i <= |modules|
        invariant i > 0 ==> loaded == ClassesSpec(modules[i - 1])
      {
        loaded := GetMessageClasses(modules[i]);
        i := i + 1;
      }
      classes := loaded;
    }

    /** `get_type(message_type, message_version)`. */
    function GetType(msgType: Value, version: Value): (r: Result<MsgClass, FactoryError>)
      reads this
      ensures r.Success? <==>
        TypeKey(msgType).Some? && VersionKey(version).Some? &&
        (TypeKey(msgType).value, VersionKey(version).value) in classes
      ensures r.Success? ==> r.value == classes[(TypeKey(msgType).value, VersionKey(version).value)]
      ensures r.Failure? && !Unhashable(msgType) && !Unhashable(version) ==> r.error == MissingMsgType(Some(msgType))
    {
      if Unhashable(msgType) || Unhashable(version) then Failure(UnhashableKey(msgType, version))
      else if TypeKey(msgType).None? || VersionKey(version).None? then Failure(MissingMsgType(Some(msgType)))
      else
        var key := (TypeKey(msgType).value, VersionKey(version).value);
        if key in classes then Success(classes[key]) else Failure(MissingMsgType(Some(msgType)))
    }

    /** `get_instance(**message_raw)`: a fresh no-argument instance of the
        class registered under the message's type and version (0 when
        absent); a missing or None type is MissingMsgType, and every other
        outcome of `get_type` is passed through. */
    function GetInstance(raw: seq<(Key, Value)>): (r: Result<Instance, FactoryError>)
      reads this
      ensures Lookup(raw, Name("MSG_TYPE")) in {None, Some(Null)} ==> r == Failure(MissingMsgType(None))
      ensures Lookup(raw, Name("MSG_TYPE")) !in {None, Some(Null)} ==>
        var t := Lookup(raw, Name("MSG_TYPE")).value;
        (r.Success? <==> GetType(t, RawVersion(raw)).Success?) &&
        (r.Failure? ==> r.error == GetType(t, RawVersion(raw)).error) &&
        (r.Success? ==> r.value == NewInstance(GetType(t, RawVersion(raw)).value))
      ensures r.Success? ==> r.value.cls in classes.Values
    {
      var msgType := Lookup(raw, Name("MSG_TYPE"));
      if msgType.None? || msgType.value == Null then Failure(MissingMsgType(None))
      else match GetType(msgType.value, RawVersion(raw))
        case Failure(e) => Failure(e)
        case Success(cls) => Success(NewInstance(cls))
    }

    /** `set_message_class(cls)`: a class that does not fit is refused
        with its reason; otherwise it is registered, replacing whatever
        was under its key. */
    method SetMessageClass(cls: MsgClass) returns (err: Option<string>)
      modifies this
      ensures err == CheckObjFits(cls)
      ensures err.Some? ==> classes == old(classes)
      ensures err.None? ==> classes == old(classes)[KeyOf(cls) := cls]
      ensures err.None? ==> GetType(Str(cls.typename.value), Int(cls.version.value)) == Success(cls)
    {
      err := CheckObjFits(cls);
      if err.None? {
        classes := classes[KeyOf(cls) := cls];
      }
    }
  }

  /** The message classes among the attributes of the node message mod,
      in `dir` order. */
  const NodeModule: seq<MsgClass> :=
    [ BatchCommittedCls, BlacklistMsgCls, CatchupRepCls, CatchupReqCls, CheckpointCls, CheckpointStateCls,
      CommitCls, ConsistencyProofCls, CurrentStateCls, InstanceChangeCls, LedgerStatusCls, MessageCls,
      MessageMetadataCls, MessageRepCls, MessageReqCls, MessageSubclass("NodeMessage", None, None, None),
      ObservedDataCls, OrderedDecl.cls, OrderedDataCls, PoolLedgerTxnsCls, PrePrepareCls, PrepareCls,
      PropagateDecl.cls, PropagateDataCls, RejectCls, NodeReplyCls, RequestAckCls, RequestNackCls,
      ThreePCStateCls, ViewChangeDoneCls ]

  /** The message classes among the attributes of the client message mod. */
  const ClientModule: seq<MsgClass> :=
    [ GetTxnRequestDecl.cls, GetTxnRequestDataCls, NodeRequestDecl.cls, NodeRequestDataCls,
      NymRequestDecl.cls, NymRequestDataCls, SignedNodeRequestCls, SignedNymRequestCls ]

  lemma NodeModuleFits()
    ensures forall k :: 0 <= k < |NodeModule| ==>
      (Fits(NodeModule[k]) <==> k == 17 || k == 22)
  {
  }

  /** One more class of the module: registered under its key when it fits,
      skipped otherwise. */
  lemma ClassesSpecStep(mod: seq<MsgClass>, x: nat)
    requires x < |mod|
    ensures ClassesSpec(mod[..x + 1]) ==
      if Fits(mod[x]) then ClassesSpec(mod[..x])[KeyOf(mod[x]) := mod[x]] else ClassesSpec(mod[..x])
  {
    assert mod[..x + 1][..x] == mod[..x];
  }

  /** A run of classes none of which fits adds nothing. */
  lemma {:induction false} ClassesSpecSkip(mod: seq<MsgClass>, lo: nat, hi: nat)
    requires lo <= hi <= |mod|
    requires forall k :: lo <= k < hi ==> !Fits(mod[k])
    ensures ClassesSpec(mod[..hi]) == ClassesSpec(mod[..lo])
    decreases hi - lo
  {
    if lo < hi {
      ClassesSpecStep(mod, hi - 1);
      ClassesSpecSkip(mod, lo, hi - 1);
    }
  }

  /** When the class at `l` is the last that fits, the module registers
      what its prefix does, plus that class. */
  lemma LastRegistered(mod: seq<MsgClass>, l: nat)
    requires l < |mod| && Fits(mod[l])
    requires forall k :: l < k < |mod| ==> !Fits(mod[k])
    ensures ClassesSpec(mod) == ClassesSpec(mod[..l])[KeyOf(mod[l]) := mod[l]]
  {
    ClassesSpecStep(mod, l);
    ClassesSpecSkip(mod, l + 1, |mod|);
    assert mod[..|mod|] == mod;
  }

  /** A module in which exactly one class fits registers that class alone. */
  lemma OneRegistered(mod: seq<MsgClass>, i: nat)
    requires i < |mod|
    requires forall k :: 0 <= k < |mod| ==> (Fits(mod[k]) <==> k == i)
    ensures ClassesSpec(mod) == map[KeyOf(mod[i]) := mod[i]]
  {
    ClassesSpecSkip(mod, 0, i);
    LastRegistered(mod, i);
  }

  /** A module in which exactly two classes fit registers exactly those
      two, the later one winning a shared key. */
  lemma TwoRegistered(mod: seq<MsgClass>, i: nat, j: nat)
    requires i < j < |mod|
    requires forall k :: 0 <= k < |mod| ==> (Fits(mod[k]) <==> k == i || k == j)
    ensures ClassesSpec(mod) == map[KeyOf(mod[i]) := mod[i], KeyOf(mod[j]) := mod[j]]
  {
    var pre := mod[..j];
    assert forall k :: 0 <= k < |pre| ==> pre[k] == mod[k];
    OneRegistered(pre, i);
    LastRegistered(mod, j);
  }

  /** Of the node message module only Ordered and Propagate are
      registered: the other tables have no version or are not Messages. */
  lemma NodeRegistry()
    ensures ClassesSpec(NodeModule) == map[("ORDERED", 0) := OrderedDecl.cls, ("PROPAGATE", 0) := PropagateDecl.cls]
  {
    NodeModuleFits();
    assert NodeModule[17] == OrderedDecl.cls && NodeModule[22] == PropagateDecl.cls;
    TwoRegistered(NodeModule, 17, 22);
  }

  lemma ClientModuleFits()
    ensures forall k :: 0 <= k < |ClientModule| ==>
      (Fits(ClientModule[k]) <==> k == 0 || k == 6 || k == 7)
  {
  }

  /** A module in which exactly three classes fit registers exactly those
      three, a later one winning a shared key. */
  lemma ThreeRegistered(mod: seq<MsgClass>, i: nat, j: nat, l: nat)
    requires i < j < l < |mod|
    requires forall k :: 0 <= k < |mod| ==> (Fits(mod[k]) <==> k == i || k == j || k == l)
    ensures ClassesSpec(mod) == map[KeyOf(mod[i]) := mod[i], KeyOf(mod[j]) := mod[j], KeyOf(mod[l]) := mod[l]]
  {
    var pre := mod[..l];
    assert forall k :: 0 <= k < |pre| ==> pre[k] == mod[k];
    TwoRegistered(pre, i, j);
    LastRegistered(mod, l);
  }

  /** Of the client message module, NymRequest and NodeRequest are refused
      (they demand a signature) and their signed wrappers are registered
      under the same typenames, with GetTxnRequest. */
  lemma ClientRegistry()
    ensures ClassesSpec(ClientModule) ==
      map[("GET_TXN", 0) := GetTxnRequestDecl.cls, ("NODE", 0) := SignedNodeRequestCls, ("NYM", 0) := SignedNymRequestCls]
    ensures CheckObjFits(NymRequestDecl.cls) == Some("use a SignedMessage wrapper instead")
  {
    ClientModuleFits();
    assert ClientModule[0] == GetTxnRequestDecl.cls && ClientModule[6] == SignedNodeRequestCls && ClientModule[7] == SignedNymRequestCls;
    ThreeRegistered(ClientModule, 0, 6, 7);
  }

  /** Loading the client module and then the node module keeps only the
      node module's classes. */
  lemma LoadingReplaces()
    ensures LoadedClasses([ClientModule, NodeModule]) == Success(ClassesSpec(NodeModule))
  {
    NodeRegistry();
    assert [ClientModule, NodeModule][1] == NodeModule;
    assert ("ORDERED", 0) in ClassesSpec(NodeModule);
  }
}
