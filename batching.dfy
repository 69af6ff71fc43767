/** plenum/common/messages/batched_message_handler.py: splitting outgoing
    messages into length-limited batches by recursive bisection, and
    unpacking incoming batches. */
module Batching {
  import opened Wrappers
  import opened Wire
  import opened MessageBase
  import opened MessageBaseProps
  import opened BatchMessage

  /** `BatchedMessageHandler.SPLIT_STEPS_LIMIT`. */
  const SplitStepsLimit: nat := 8

  /** What `_split_messages_on_batches` is handed: the batch builder, the
      length of a message and of a batch (their serialized sizes, abstract
      here) and the under-limit test. */
  datatype Splitter<!M, !B> = Splitter(makeBatch: seq<M> -> B, len: M -> nat, batchLen: B -> nat, underLimit: nat -> bool)

  /** `sum(len(m) for m in msgs)`. */
  function TotalLen<M>(msgs: seq<M>, len: M -> nat): nat
  {
    if msgs == [] then 0 else len(msgs[0]) + TotalLen(msgs[1..], len)
  }

  /** Python truthiness of a result: not None and not empty. */
  predicate Truthy<B>(r: Option<seq<B>>)
  {
    r.Some? && r.value != []
  }

  predicate SomeMessageTooLong<M, B>(msgs: seq<M>, sp: Splitter<M, B>)
  {
    exists i :: 0 <= i < |msgs| && !sp.underLimit(sp.len(msgs[i]))
  }

  /** `_split_messages_on_batches(msgs, make_batch, is_under_limit, step_num)`. */
  function SplitMessagesOnBatches<M, B>(msgs: seq<M>, sp: Splitter<M, B>, stepNum: nat := 0): (r: Option<seq<B>>)
    ensures stepNum > SplitStepsLimit ==> r.None?
    ensures r.Some? ==> r.value != []
    decreases SplitStepsLimit + 1 - stepNum, 1
  {
    if stepNum > SplitStepsLimit then None
    else if !sp.underLimit(TotalLen(msgs, sp.len)) then
      if SomeMessageTooLong(msgs, sp) then None
      else Split(msgs, sp, stepNum + 1)
    else if sp.underLimit(sp.batchLen(sp.makeBatch(msgs))) then Some([sp.makeBatch(msgs)])
    else if |msgs| == 1 then None
    else Split(msgs, sp, stepNum + 1)
  }

  /** The inner `split(rec_depth)`: both halves at the new depth, joined
      only if both are truthy. */
  function Split<M, B>(msgs: seq<M>, sp: Splitter<M, B>, recDepth: nat): (r: Option<seq<B>>)
    requires recDepth <= SplitStepsLimit + 1
    ensures r.Some? ==> |r.value| >= 2
    decreases SplitStepsLimit + 1 - recDepth, 2
  {
    var half := |msgs| / 2;
    var left := SplitMessagesOnBatches(msgs[..half], sp, recDepth);
    var right := SplitMessagesOnBatches(msgs[half..], sp, recDepth);
    if Truthy(left) && Truthy(right) then Some(left.value + right.value) else None
  }

  function Concat<M>(parts: seq<seq<M>>): seq<M>
  {
    if parts == [] then [] else parts[0] + Concat(parts[1..])
  }

  function Pow2(n: nat): (r: nat)
    ensures r >= 1
  {
    if n == 0 then 1 else 2 * Pow2(n - 1)
  }

  /** `parts` are the message lists behind `batches`: in order they make up
      `msgs`, each batch is built from its part, the part's summed length
      and the batch's length both pass the test, and no part of a
      non-empty input is empty. */
  ghost predicate Covers<M, B>(msgs: seq<M>, sp: Splitter<M, B>, parts: seq<seq<M>>, batches: seq<B>)
  {
    |parts| == |batches| && Concat(parts) == msgs &&
    forall k :: 0 <= k < |parts| ==>
      batches[k] == sp.makeBatch(parts[k]) &&
      sp.underLimit(TotalLen(parts[k], sp.len)) && sp.underLimit(sp.batchLen(batches[k])) &&
      (msgs != [] ==> parts[k] != [])
  }

  lemma {:induction false} ConcatAppend<M>(a: seq<seq<M>>, b: seq<seq<M>>)
    ensures Concat(a + b) == Concat(a) + Concat(b)
  {
    if a == [] {
      assert a + b == b;
    } else {
      assert (a + b)[1..] == a[1..] + b;
      ConcatAppend(a[1..], b);
    }
  }

  /** A whole input under the limit, as one batch, covers itself. */
  lemma CoversSingle<M, B>(msgs: seq<M>, sp: Splitter<M, B>)
    requires sp.underLimit(TotalLen(msgs, sp.len)) && sp.underLimit(sp.batchLen(sp.makeBatch(msgs)))
    ensures Covers(msgs, sp, [msgs], [sp.makeBatch(msgs)])
  {
    assert Concat([msgs]) == msgs;
  }

  /** A single message's total length is its own, so it cannot be over the
      limit unless the message itself is. */
  lemma SingleMessageLength<M, B>(msgs: seq<M>, sp: Splitter<M, B>)
    ensures |msgs| == 1 && !SomeMessageTooLong(msgs, sp) ==> sp.underLimit(TotalLen(msgs, sp.len))
  {
    if |msgs| == 1 {
      assert TotalLen(msgs, sp.len) == sp.len(msgs[0]);
    }
  }

  /** A successful split is a non-empty list of at most 2^(8 - step_num)
      batches that cover the input exactly, in order, each under the limit. */
  lemma {:induction false} SplitSound<M, B>(msgs: seq<M>, sp: Splitter<M, B>, stepNum: nat)
    ensures var r := SplitMessagesOnBatches(msgs, sp, stepNum);
      r.Some? ==>
        stepNum <= SplitStepsLimit && 1 <= |r.value| <= Pow2(SplitStepsLimit - stepNum) &&
        exists parts :: Covers(msgs, sp, parts, r.value)
    decreases SplitStepsLimit + 1 - stepNum, 1
  {
    SplitCases(msgs, sp, stepNum);
    SingleMessageLength(msgs, sp);
    if stepNum <= SplitStepsLimit {
      if !sp.underLimit(TotalLen(msgs, sp.len)) {
        if !SomeMessageTooLong(msgs, sp) {
          SplitSoundHalves(msgs, sp, stepNum + 1);
        }
      } else if sp.underLimit(sp.batchLen(sp.makeBatch(msgs))) {
        CoversSingle(msgs, sp);
      } else if |msgs| != 1 {
        assert SplitMessagesOnBatches(msgs, sp, stepNum) == Split(msgs, sp, stepNum + 1);
        SplitSoundHalves(msgs, sp, stepNum + 1);
      }
    }
  }

  /** Covers of the two halves join into a cover of the whole. */
  lemma CoversJoin<M, B>(msgs: seq<M>, half: nat, sp: Splitter<M, B>,
                         lp: seq<seq<M>>, rp: seq<seq<M>>, lb: seq<B>, rb: seq<B>)
    requires half <= |msgs|
    requires Covers(msgs[..half], sp, lp, lb) && Covers(msgs[half..], sp, rp, rb)
    requires msgs != [] ==> 0 < half < |msgs|
    ensures Covers(msgs, sp, lp + rp, lb + rb)
  {
    ConcatAppend(lp, rp);
    assert msgs[..half] + msgs[half..] == msgs;
    var parts, batches := lp + rp, lb + rb;
    forall k | 0 <= k < |parts|
      ensures batches[k] == sp.makeBatch(parts[k]) &&
        sp.underLimit(TotalLen(parts[k], sp.len)) && sp.underLimit(sp.batchLen(batches[k])) &&
        (msgs != [] ==> parts[k] != [])
    {
      if k < |lp| {
        assert parts[k] == lp[k] && batches[k] == lb[k];
      } else {
        assert parts[k] == rp[k - |lp|] && batches[k] == rb[k - |lp|];
      }
    }
  }

  lemma {:induction false} SplitSoundHalves<M, B>(msgs: seq<M>, sp: Splitter<M, B>, recDepth: nat)
    requires 1 <= recDepth <= SplitStepsLimit + 1
    requires |msgs| != 1
    ensures var r := Split(msgs, sp, recDepth);
      r.Some? ==>
        recDepth <= SplitStepsLimit && 2 <= |r.value| <= Pow2(SplitStepsLimit + 1 - recDepth) &&
        exists parts :: Covers(msgs, sp, parts, r.value)
    decreases SplitStepsLimit + 1 - recDepth, 2
  {
    var half := |msgs| / 2;
    var left := SplitMessagesOnBatches(msgs[..half], sp, recDepth);
    var right := SplitMessagesOnBatches(msgs[half..], sp, recDepth);
    SplitSound(msgs[..half], sp, recDepth);
    SplitSound(msgs[half..], sp, recDepth);
    if Truthy(left) && Truthy(right) {
      assert Pow2(SplitStepsLimit + 1 - recDepth) == 2 * Pow2(SplitStepsLimit - recDepth);
      var lp :| Covers(msgs[..half], sp, lp, left.value);
      var rp :| Covers(msgs[half..], sp, rp, right.value);
      CoversJoin(msgs, half, sp, lp, rp, left.value, right.value);
    }
  }

  /** The individual outcomes of one call. */
  lemma SplitCases<M, B>(msgs: seq<M>, sp: Splitter<M, B>, stepNum: nat)
    ensures stepNum > SplitStepsLimit ==> SplitMessagesOnBatches(msgs, sp, stepNum).None?
    ensures !sp.underLimit(TotalLen(msgs, sp.len)) && SomeMessageTooLong(msgs, sp) ==>
      SplitMessagesOnBatches(msgs, sp, stepNum).None?
    ensures stepNum <= SplitStepsLimit && !sp.underLimit(TotalLen(msgs, sp.len)) && !SomeMessageTooLong(msgs, sp) ==>
      SplitMessagesOnBatches(msgs, sp, stepNum) == Split(msgs, sp, stepNum + 1)
    ensures stepNum <= SplitStepsLimit && sp.underLimit(TotalLen(msgs, sp.len)) &&
            sp.underLimit(sp.batchLen(sp.makeBatch(msgs))) ==>
      SplitMessagesOnBatches(msgs, sp, stepNum) == Some([sp.makeBatch(msgs)])
    ensures |msgs| == 1 && !sp.underLimit(sp.batchLen(sp.makeBatch(msgs))) ==>
      SplitMessagesOnBatches(msgs, sp, stepNum).None?
  {
    if |msgs| == 1 && !sp.underLimit(TotalLen(msgs, sp.len)) {
      assert TotalLen(msgs, sp.len) == sp.len(msgs[0]);
      assert !sp.underLimit(sp.len(msgs[0]));
    }
  }

  /** The handler's collaborators: serialized length, the length validator's
      test, per-message processing (an abstract function: the base class
      `MessageHandler` defines no `_do_process_input_msg` for the `super()`
      calls to reach), the field checks, and
      which classes `isinstance(msg, Batch)` admits (Batch and its subclasses). */
  datatype Handler = Handler(
    len: Value -> nat, underLimit: nat -> bool, process: Value -> seq<Value>, fc: FieldCheck,
    isBatch: MsgClass -> bool)

  /** `_make_batch`: `Batch(msgs)`. */
  function MakeBatch(msgs: seq<Value>): Value
  {
    Msg(NewBatch(List(msgs)))
  }

  function BatchSplitter(h: Handler): Splitter<Value, Value>
  {
    Splitter(MakeBatch, h.len, h.len, h.underLimit)
  }

  /** `_should_batch`. */
  predicate ShouldBatch(msgs: seq<Value>)
  {
    |msgs| > 1
  }

  /** The caller's list, which `_makes_batches` clears in place. */
  class MessageList {
    var items: seq<Value>

    constructor(items: seq<Value>)
      ensures this.items == items
    {
      this.items := items;
    }
  }

  /** `_makes_batches(msgs)`: at most one message is returned as is;
      otherwise the caller's list is emptied and the batches (or None when
      batching fails) are returned. */
  method MakesBatches(h: Handler, msgs: MessageList) returns (r: Option<seq<Value>>)
    modifies msgs
    ensures !ShouldBatch(old(msgs.items)) ==> r == Some(old(msgs.items)) && msgs.items == old(msgs.items)
    ensures ShouldBatch(old(msgs.items)) ==>
      msgs.items == [] && r == SplitMessagesOnBatches(old(msgs.items), BatchSplitter(h))
  {
    if !ShouldBatch(msgs.items) {
      return Some(msgs.items);
    }
    var batches := SplitMessagesOnBatches(msgs.items, BatchSplitter(h));
    SplitSound(msgs.items, BatchSplitter(h), 0);
    msgs.items := [];
    if Truthy(batches) {
      r := batches;
    } else {
      r := None;
    }
  }

  lemma {:induction false} Pow2Monotone(a: nat, b: nat)
    requires a <= b
    ensures Pow2(a) <= Pow2(b)
    decreases b
  {
    if a < b {
      Pow2Monotone(a, b - 1);
    }
  }

  /** A successful split, from whatever step, is at most 2^8 = 256 batches
      and has parts behind it. */
  lemma SplitCovers<M, B>(msgs: seq<M>, sp: Splitter<M, B>, stepNum: nat) returns (parts: seq<seq<M>>)
    requires SplitMessagesOnBatches(msgs, sp, stepNum).Some?
    ensures 1 <= |SplitMessagesOnBatches(msgs, sp, stepNum).value| <= 256
    ensures Covers(msgs, sp, parts, SplitMessagesOnBatches(msgs, sp, stepNum).value)
  {
    var r := SplitMessagesOnBatches(msgs, sp, stepNum);
    SplitSound(msgs, sp, stepNum);
    parts :| Covers(msgs, sp, parts, r.value);
    AtMost256(|r.value|, stepNum);
  }

  lemma AtMost256(n: nat, stepNum: nat)
    requires stepNum <= SplitStepsLimit && n <= Pow2(SplitStepsLimit - stepNum)
    ensures n <= 256
  {
    Pow2Monotone(SplitStepsLimit - stepNum, SplitStepsLimit);
    assert Pow2(SplitStepsLimit) == 256;
  }

  /** Every outgoing batch is a `Batch` holding one part of the input, the
      parts in order make up the input, and there are at most 256 batches. */
  lemma HandlerBatchesCover(h: Handler, msgs: seq<Value>)
    requires SplitMessagesOnBatches(msgs, BatchSplitter(h)).Some?
    ensures var batches := SplitMessagesOnBatches(msgs, BatchSplitter(h)).value;
      1 <= |batches| <= 256 &&
      exists parts :: |parts| == |batches| && Concat(parts) == msgs &&
        forall k :: 0 <= k < |parts| ==>
          batches[k] == MakeBatch(parts[k]) && h.underLimit(h.len(batches[k]))
  {
    var sp := BatchSplitter(h);
    var batches := SplitMessagesOnBatches(msgs, sp).value;
    var parts := SplitCovers(msgs, sp, 0);
    forall k | 0 <= k < |parts|
      ensures batches[k] == MakeBatch(parts[k]) && h.underLimit(h.len(batches[k]))
    {
      assert batches[k] == sp.makeBatch(parts[k]) && sp.underLimit(sp.batchLen(batches[k]));
    }
  }

  /** The base handler's results for the messages in order, concatenated. */
  function ProcessAll(process: Value -> seq<Value>, items: seq<Value>): seq<Value>
  {
    if items == [] then [] else ProcessAll(process, items[..|items| - 1]) + process(items[|items| - 1])
  }

  lemma {:induction false} ProcessAllAppend(process: Value -> seq<Value>, a: seq<Value>, b: seq<Value>)
    ensures ProcessAll(process, a + b) == ProcessAll(process, a) + ProcessAll(process, b)
    decreases |b|
  {
    if b == [] {
      assert a + b == a;
    } else {
      var b', last := b[..|b| - 1], b[|b| - 1];
      assert a + b == (a + b') + [last];
      var ab := a + b;
      assert ab[..|ab| - 1] == a + b' && ab[|ab| - 1] == last;
      assert ProcessAll(process, ab) == ProcessAll(process, a + b') + process(last);
      ProcessAllAppend(process, a, b');
      assert ProcessAll(process, b) == ProcessAll(process, b') + process(last);
    }
  }

  predicate IsBatch(h: Handler, msg: Value)
  {
    msg.Msg? && h.isBatch(msg.inst.cls)
  }

  /** What `_do_process_input_msg(msg)` returns or raises. */
  function ProcessInputSpec(h: Handler, msg: Value): (r: Result<seq<Value>, ValidationError>)
    ensures IsBatch(h, msg) && r.Success? ==> Validate(msg.inst, h.fc).Pass?
    ensures IsBatch(h, msg) && Validate(msg.inst, h.fc).Fail? ==> r == Failure(Validate(msg.inst, h.fc).error)
  {
    if !IsBatch(h, msg) then Success(h.process(msg))
    else match Validate(msg.inst, h.fc)
      case Fail(e) => Failure(e)
      case Pass =>
        match GetAttr(msg.inst, "messages")
        case None => Failure(AttributeMissing("Batch", "messages"))
        case Some(v) => if v.List? then Success(ProcessAll(h.process, v.items)) else Failure(NotIterable("Batch", v))
  }

  /** `_do_process_input_msg(msg)`. */
  method DoProcessInputMsg(h: Handler, msg: Value) returns (r: Result<seq<Value>, ValidationError>)
    ensures r == ProcessInputSpec(h, msg)
  {
    if !IsBatch(h, msg) {
      return Success(h.process(msg));
    }
    var checked := Validate(msg.inst, h.fc);
    if checked.Fail? {
      return Failure(checked.error);
    }
    var messages := GetAttr(msg.inst, "messages");
    if messages.None? {
      return Failure(AttributeMissing("Batch", "messages"));
    }
    if !messages.value.List? {
      return Failure(NotIterable("Batch", messages.value));
    }
    var items := messages.value.items;
    var result := [];
    var i := 0;
    while i < |items|
      invariant 0 <= i <= |items|
      invariant result == ProcessAll(h.process, items[..i])
    {
      assert items[..i + 1][..i] == items[..i];
      result := result + h.process(items[i]);
      i := i + 1;
    }
    assert items[..i] == items;
    r := Success(result);
  }

  /** Non-batch messages go to the base handler unchanged; a `Batch` itself
      never gets past `msg.validate()`, because its schema is pair-shaped. */
  lemma ProcessInputOutcome(h: Handler, msg: Value)
    ensures !IsBatch(h, msg) ==> ProcessInputSpec(h, msg) == Success(h.process(msg))
    ensures IsBatch(h, msg) && msg.inst.cls == BatchCls ==>
      ProcessInputSpec(h, msg).Failure? &&
      ProcessInputSpec(h, msg).error in {AttributeMissing("Batch", "BATCH_MSGS"), SchemaItemIndex("Batch")}
  {
    if IsBatch(h, msg) && msg.inst.cls == BatchCls {
      assert BatchCls.schema[0].Pair?;
      PairSchemaNeverValidates(msg.inst, h.fc);
      AsDictShape(msg.inst);
      if AsDict(msg.inst).Success? {
        assert GetAttr(msg.inst, ItemAttr(BatchCls.schema[0])).Some?;
      }
    }
  }
}
