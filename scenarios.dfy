/**
 * Client programs written against the contracts of `Subject` and the
 * `Registry` lemmas: the concrete behaviours the subject promises its users.
 */
module Scenarios {
  import opened Wrappers
  import opened Signatures
  import opened FunctionCollection
  import opened Registry
  import opened Observable

  /** An `int` passed by value (an rvalue argument such as `5`). */
  const IntArg: Param := Param("int", false, NoRef)

  /** A `double` passed by value (an argument such as `3.0`). */
  const DoubleArg: Param := Param("double", false, NoRef)

  /** `[&](int x) { total += x; }` */
  const AddToTotal: Callback := Callback("add_to_total", FunctionType(Void, [IntArg]))

  /** Subscribing untagged and notifying untagged fires the callback; once its
      subscription is cancelled, the same notification fires nothing. */
  method UntaggedSubscribeNotifyCancel() returns (first: seq<Entry>, second: seq<Entry>)
    ensures |first| == 1 && first[0].fn == AddToTotal && first[0].sig == ["int"]
    ensures second == []
  {
    var s := new Subject();
    var r := s.SubscribeUntagged(AddToTotal);
    DispatchAfterSubscribe(map[], NoTag, AddToTotal, ["int"]);
    first := s.NotifyUntagged([IntArg]);
    SubscribeThenUnsubscribe(map[], NoTag, AddToTotal, NoTag, ["int"]);
    s.Unsubscribe(r.value);
    second := s.NotifyUntagged([IntArg]);
  }

  /** Three callbacks taking no arguments. */
  const F: Callback := Callback("f", FunctionType(Void, []))
  const G: Callback := Callback("g", FunctionType(Void, []))
  const H: Callback := Callback("h", FunctionType(Void, []))

  /** Two callbacks under "a" and one under "b": notifying "a" fires the two in
      the order they subscribed, notifying "b" fires only its own. */
  method TagsAreSeparateChannels() returns (onA: seq<Entry>, onB: seq<Entry>)
    ensures |onA| == 2 && onA[0].fn == F && onA[1].fn == G
    ensures |onB| == 1 && onB[0].fn == H
  {
    assert CheckCompatibility(F.ty) == [] && SignatureOf(F.ty) == [];
    assert CheckCompatibility(G.ty) == [] && SignatureOf(G.ty) == [];
    assert CheckCompatibility(H.ty) == [] && SignatureOf(H.ty) == [];
    var s := new Subject();
    var t0 := s.functions.table;
    var r1 := s.Subscribe("a", F);
    var t1 := s.functions.table;
    var r2 := s.Subscribe("b", H);
    var t2 := s.functions.table;
    var r3 := s.Subscribe("a", G);
    var t3 := s.functions.table;
    TwoTagsDispatch(t0, t1, t2, t3, r1.value.id, r2.value.id, r3.value.id);
    onA := s.NotifyTagged("a", []);
    onB := s.NotifyTagged("b", []);
  }

  lemma TwoTagsDispatch(t0: Table, t1: Table, t2: Table, t3: Table, id1: Id, id2: Id, id3: Id)
    requires t0 == map[]
    requires (t1, id1) == Subscribed(t0, "a", F)
    requires (t2, id2) == Subscribed(t1, "b", H)
    requires (t3, id3) == Subscribed(t2, "a", G)
    ensures Dispatch(t3, "a", []) == [Entry(id1, [], F), Entry(id3, [], G)]
    ensures Dispatch(t3, "b", []) == [Entry(id2, [], H)]
  {
  }

  /** A callback taking `int` is not fired by a `double` argument, only by an `int` one. */
  method SignaturesMatchExactly() returns (withDouble: seq<Entry>, withInt: seq<Entry>)
    ensures withDouble == []
    ensures |withInt| == 1 && withInt[0].fn == AddToTotal
  {
    var s := new Subject();
    var r := s.SubscribeUntagged(AddToTotal);
    DispatchAfterSubscribe(map[], NoTag, AddToTotal, ["double"]);
    DispatchAfterSubscribe(map[], NoTag, AddToTotal, ["int"]);
    withDouble := s.NotifyUntagged([DoubleArg]);
    withInt := s.NotifyUntagged([IntArg]);
  }

  /** A callback that returns a value or takes a non-const lvalue reference is rejected. */
  method IncompatibleCallbacksRejected() returns (returning: Result<Subscription, seq<CompatError>>,
                                                  mutating: Result<Subscription, seq<CompatError>>)
    ensures returning == Err([ReturnsValue])
    ensures mutating == Err([MutableReferenceParameter])
  {
    var s := new Subject();
    assert CheckCompatibility(FunctionType(Returns("int"), [])) == [ReturnsValue];
    assert IsMutableRef(Param("int", false, LValueRef));
    assert !AcceptsNormalized([Param("int", false, LValueRef)]);
    assert CheckCompatibility(FunctionType(Void, [Param("int", false, LValueRef)])) == [MutableReferenceParameter];
    returning := s.SubscribeUntagged(Callback("get", FunctionType(Returns("int"), [])));
    mutating := s.SubscribeUntagged(Callback("set", FunctionType(Void, [Param("int", false, LValueRef)])));
  }

  /** Cancelling a subscription after its subject is destroyed has no effect. */
  method CancelAfterDestroy() returns (before: Table, after: Table)
    ensures before == after
    ensures NoTag in after && |after[NoTag].entries| == 1 && after[NoTag].entries[0].fn == AddToTotal
  {
    var s := new Subject();
    assert SignatureOf(AddToTotal.ty) == ["int"];
    var r := s.SubscribeUntagged(AddToTotal);
    s.Destroy();
    before := s.functions.table;
    s.Unsubscribe(r.value);
    after := s.functions.table;
  }

  /** A notification that took its snapshot before a subscribe or an unsubscribe
      committed sees none of it; one that starts afterwards sees all of it. */
  method NotifyObservesOneSnapshot()
    returns (beforeSubscribe: seq<Entry>, afterSubscribe: seq<Entry>,
             beforeCancel: seq<Entry>, afterCancel: seq<Entry>)
    ensures beforeSubscribe == [] && afterCancel == []
    ensures afterSubscribe == beforeCancel
    ensures |afterSubscribe| == 1 && afterSubscribe[0].fn == AddToTotal
  {
    var s := new Subject();
    var held := s.functions;
    var r := s.SubscribeUntagged(AddToTotal);
    DispatchAfterSubscribe(map[], NoTag, AddToTotal, ["int"]);
    beforeSubscribe := Dispatch(held.table, NoTag, Normalize([IntArg]));
    afterSubscribe := s.NotifyUntagged([IntArg]);
    held := s.functions;
    SubscribeThenUnsubscribe(map[], NoTag, AddToTotal, NoTag, ["int"]);
    s.Unsubscribe(r.value);
    beforeCancel := Dispatch(held.table, NoTag, Normalize([IntArg]));
    afterCancel := s.NotifyUntagged([IntArg]);
  }

  /** One write a client may perform on a subject. */
  datatype Write = SubscribeTo(tag: Tag, fn: Callback) | Cancel(sub: Subscription)

  /** Whatever sequence of writes is applied, a registry object a reader holds
      keeps its contents. No invariant is needed for that: `Subscribe` and
      `Unsubscribe` may modify only the subject itself, and their bodies
      write only to the fresh copy they publish. */
  method WritersNeverTouchHeldSnapshots(s: Subject, held: CollectionMap, writes: seq<Write>)
    requires s.Valid() && s.alive
    modifies s
    ensures s.Valid() && s.alive
    ensures held.table == old(held.table)
  {
    var i := 0;
    while i < |writes|
      invariant 0 <= i <= |writes|
      invariant s.Valid() && s.alive
    {
      match writes[i] {
        case SubscribeTo(tag, fn) =>
          var r := s.Subscribe(tag, fn);
        case Cancel(sub) =>
          s.Unsubscribe(sub);
      }
      i := i + 1;
    }
  }
}
