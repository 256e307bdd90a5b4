/**
 * The tag-indexed registry (`collection_map`, an `unordered_map` from tag to
 * callable collection) as a value, and the three transitions the subject
 * performs on it: subscribing, unsubscribing and dispatching a notification.
 * Every registry version the subject publishes is one of these values.
 */
module Registry {
  import opened Signatures
  import opened FunctionCollection

  /** The default template argument of `subject` is `std::string`. */
  type Tag = string

  /** `Tag{}`: the value-initialized tag used by the untagged overloads. */
  const NoTag: Tag := ""

  type Table = map<Tag, Collection>

  ghost predicate TableValid(t: Table) {
    forall tag :: tag in t ==> Valid(t[tag])
  }

  /** `(*functions_)[tag]`: the stored collection, or the empty one that
      `operator[]` default-constructs. */
  function Lookup(t: Table, tag: Tag): (c: Collection)
    ensures tag in t ==> c == t[tag]
    ensures tag !in t ==> c.entries == [] && Valid(c)
  {
    if tag in t then t[tag] else Empty
  }

  /** The registry after `subscribe(tag, fn)` inserted `fn`, with the id it received. */
  function Subscribed(t: Table, tag: Tag, fn: Callback): (r: (Table, Id))
    ensures r.0.Keys == t.Keys + {tag}
    ensures forall other :: other in t && other != tag ==> r.0[other] == t[other]
    ensures r.0[tag].entries == Lookup(t, tag).entries + [Entry(r.1, SignatureOf(fn.ty), fn)]
  {
    var (c, id) := Insert(Lookup(t, tag), SignatureOf(fn.ty), fn);
    (t[tag := c], id)
  }

  /** The registry after `detail::unsubscribe` removed `id` under `tag`:
      nothing happens when the tag is absent. */
  function Unsubscribed(t: Table, tag: Tag, id: Id): (r: Table)
    ensures r.Keys == t.Keys
    ensures forall other :: other in t && other != tag ==> r[other] == t[other]
    ensures tag !in t ==> r == t
    ensures tag in t ==> forall e :: e in r[tag].entries <==> e in t[tag].entries && e.id != id
  {
    if tag !in t then t else t[tag := Remove(t[tag], id)]
  }

  /** The entries a notification with signature `sig` under `tag` invokes, in invocation order. */
  function Dispatch(t: Table, tag: Tag, sig: Signature): (fired: seq<Entry>)
    ensures tag !in t ==> fired == []
    ensures forall e :: e in fired <==> tag in t && e in t[tag].entries && e.sig == sig
    ensures IsSubsequence(fired, Lookup(t, tag).entries)
  {
    if tag !in t then [] else CallAll(t[tag], sig)
  }

  /** Subscribing keeps the registry valid, and the new id is held by no
      other entry under the same tag. */
  lemma SubscribedValid(t: Table, tag: Tag, fn: Callback)
    requires TableValid(t)
    ensures var (t1, id) := Subscribed(t, tag, fn);
      && TableValid(t1)
      && forall e :: e in t1[tag].entries && e.id == id ==> e == Entry(id, SignatureOf(fn.ty), fn)
  {
  }

  /** Unsubscribing keeps the registry valid. */
  lemma UnsubscribedValid(t: Table, tag: Tag, id: Id)
    requires TableValid(t)
    ensures TableValid(Unsubscribed(t, tag, id))
  {
    if tag in t {
      RemoveValid(t[tag], id);
    }
  }

  /** A notification invokes each entry at most once and in subscription
      order: the ids it fires strictly increase. */
  lemma DispatchInSubscriptionOrder(t: Table, tag: Tag, sig: Signature)
    requires TableValid(t)
    ensures Increasing(Dispatch(t, tag, sig))
  {
    if tag in t {
      CallAllInInsertionOrder(t[tag], sig);
    }
  }

  /** A fresh subscription is invoked last by every later notification with
      its signature under its tag, and by no other. */
  lemma DispatchAfterSubscribe(t: Table, tag: Tag, fn: Callback, sig: Signature)
    ensures var (t1, id) := Subscribed(t, tag, fn);
      Dispatch(t1, tag, sig)
      == Dispatch(t, tag, sig) + (if sig == SignatureOf(fn.ty) then [Entry(id, sig, fn)] else [])
  {
    var c := Lookup(t, tag);
    CallAllAfterInsert(c, SignatureOf(fn.ty), fn, sig);
    if tag !in t {
      assert CallAll(c, sig) == [];
    }
  }

  /** Subscribing under one tag is invisible to notifications of any other tag. */
  lemma SubscribeIsolatesTags(t: Table, tag: Tag, fn: Callback, other: Tag, sig: Signature)
    requires other != tag
    ensures Dispatch(Subscribed(t, tag, fn).0, other, sig) == Dispatch(t, other, sig)
  {
  }

  /** Unsubscribing under one tag is invisible to notifications of any other tag. */
  lemma UnsubscribeIsolatesTags(t: Table, tag: Tag, id: Id, other: Tag, sig: Signature)
    requires other != tag
    ensures Dispatch(Unsubscribed(t, tag, id), other, sig) == Dispatch(t, other, sig)
  {
  }

  /** After unsubscribing `id` under `tag`, no notification under `tag` invokes it. */
  lemma UnsubscribedNeverFires(t: Table, tag: Tag, id: Id, sig: Signature)
    ensures forall e :: e in Dispatch(Unsubscribed(t, tag, id), tag, sig) ==> e.id != id
  {
  }

  /** A handle's action triggered again after a later subscription under the
      same tag removes nothing: the id it names is never handed out again. */
  lemma StaleCancelAfterSubscribe(t: Table, tag: Tag, id: Id, fn: Callback)
    requires TableValid(t) && id < Lookup(t, tag).nextId
    ensures var t1 := Unsubscribed(t, tag, id);
      var (t2, id2) := Subscribed(t1, tag, fn);
      id2 != id && Unsubscribed(t2, tag, id) == t2
  {
    assert tag in t;
    StaleRemoveAfterInsert(t[tag], id, SignatureOf(fn.ty), fn);
    var t1 := Unsubscribed(t, tag, id);
    assert Lookup(t1, tag) == Remove(t[tag], id);
  }

  /** A write the subject performs on its registry. */
  datatype Op = Sub(tag: Tag, fn: Callback) | Unsub(tag: Tag, id: Id)

  /** The registry after the writes `ops`, in order. No write drops a tag:
      `remove` only empties a collection. */
  function Apply(t: Table, ops: seq<Op>): (r: Table)
    ensures t.Keys <= r.Keys
    decreases |ops|
  {
    if ops == [] then t
    else
      var t1 := match ops[0] {
        case Sub(g, fn) => Subscribed(t, g, fn).0
        case Unsub(g, i) => Unsubscribed(t, g, i)
      };
      Apply(t1, ops[1..])
  }

  /** `id` was issued under `tag` and no entry there holds it any more. */
  ghost predicate Gone(t: Table, tag: Tag, id: Id) {
    && TableValid(t)
    && id < Lookup(t, tag).nextId
    && forall e :: e in Lookup(t, tag).entries ==> e.id != id
  }

  /** A subscription under any tag keeps a gone id gone. */
  lemma SubscribeKeepsGone(t: Table, tag: Tag, id: Id, g: Tag, fn: Callback)
    requires Gone(t, tag, id)
    ensures Gone(Subscribed(t, g, fn).0, tag, id)
  {
    SubscribedValid(t, g, fn);
    var (t1, i1) := Subscribed(t, g, fn);
    if g == tag {
      forall e | e in Lookup(t1, tag).entries ensures e.id != id {
        assert e in Lookup(t, tag).entries + [Entry(i1, SignatureOf(fn.ty), fn)];
      }
    }
  }

  /** An unsubscription under any tag keeps a gone id gone. */
  lemma UnsubscribeKeepsGone(t: Table, tag: Tag, id: Id, g: Tag, i: Id)
    requires Gone(t, tag, id)
    ensures Gone(Unsubscribed(t, g, i), tag, id)
  {
    UnsubscribedValid(t, g, i);
  }

  /** Once gone, an id stays gone whatever writes follow: it is never
      handed out again and nothing brings its entry back. */
  lemma {:induction false} StaysGone(t: Table, tag: Tag, id: Id, ops: seq<Op>)
    requires Gone(t, tag, id)
    ensures Gone(Apply(t, ops), tag, id)
    decreases |ops|
  {
    if ops != [] {
      match ops[0] {
        case Sub(g, fn) =>
          SubscribeKeepsGone(t, tag, id, g, fn);
          StaysGone(Subscribed(t, g, fn).0, tag, id, ops[1..]);
        case Unsub(g, i) =>
          UnsubscribeKeepsGone(t, tag, id, g, i);
          StaysGone(Unsubscribed(t, g, i), tag, id, ops[1..]);
      }
    }
  }

  /** Cancelling a gone id changes nothing. */
  lemma CancelGoneIsNoop(t: Table, tag: Tag, id: Id)
    requires Gone(t, tag, id)
    ensures Unsubscribed(t, tag, id) == t
  {
    if tag in t {
      FilterKeepsAll(t[tag].entries, LacksId(id));
    }
  }

  /** A cancelled subscription is invoked by no later notification under its
      tag, whatever writes happen in between. */
  lemma NeverFiresAgain(t: Table, tag: Tag, id: Id, ops: seq<Op>, sig: Signature)
    requires TableValid(t) && id < Lookup(t, tag).nextId
    ensures forall e :: e in Dispatch(Apply(Unsubscribed(t, tag, id), ops), tag, sig) ==> e.id != id
  {
    UnsubscribedValid(t, tag, id);
    StaysGone(Unsubscribed(t, tag, id), tag, id, ops);
  }

  /** Triggering a cancellation again, after any writes, changes nothing. */
  lemma StaleCancelAfterWrites(t: Table, tag: Tag, id: Id, ops: seq<Op>)
    requires TableValid(t) && id < Lookup(t, tag).nextId
    ensures var t1 := Apply(Unsubscribed(t, tag, id), ops);
      Unsubscribed(t1, tag, id) == t1
  {
    UnsubscribedValid(t, tag, id);
    StaysGone(Unsubscribed(t, tag, id), tag, id, ops);
    CancelGoneIsNoop(Apply(Unsubscribed(t, tag, id), ops), tag, id);
  }

  /** Unsubscribing removes exactly the entry with that id (ids are unique
      within a tag's collection) and keeps the others in their order. */
  lemma UnsubscribeRemovesExactlyOne(t: Table, tag: Tag, k: nat)
    requires TableValid(t) && tag in t && k < |t[tag].entries|
    ensures var s := t[tag].entries;
      Unsubscribed(t, tag, s[k].id)[tag].entries == s[..k] + s[k + 1..]
  {
    RemoveExactlyOne(t[tag], k);
  }

  /** Triggering the same cancellation twice has no additional effect. */
  lemma UnsubscribeIdempotent(t: Table, tag: Tag, id: Id)
    ensures Unsubscribed(Unsubscribed(t, tag, id), tag, id) == Unsubscribed(t, tag, id)
  {
    if tag in t {
      RemoveIdempotent(t[tag], id);
    }
  }

  /** Subscribing and then cancelling that subscription restores every
      notification's outcome, under every tag and signature. (The registry
      itself may keep an emptied collection that `operator[]` created.) */
  lemma SubscribeThenUnsubscribe(t: Table, tag: Tag, fn: Callback, other: Tag, sig: Signature)
    requires TableValid(t)
    ensures var (t1, id) := Subscribed(t, tag, fn);
      Dispatch(Unsubscribed(t1, tag, id), other, sig) == Dispatch(t, other, sig)
  {
    var (t1, id) := Subscribed(t, tag, fn);
    if other == tag {
      var c := Lookup(t, tag);
      InsertThenRemove(c, SignatureOf(fn.ty), fn);
      assert Unsubscribed(t1, tag, id)[tag].entries == c.entries;
      if tag !in t {
        assert CallAll(Unsubscribed(t1, tag, id)[tag], sig) == [];
      }
    }
  }

  /** The outcome of a notification depends only on the entries stored under
      its tag: registries that agree there dispatch alike. */
  lemma DispatchDependsOnTagOnly(t: Table, u: Table, tag: Tag, sig: Signature)
    requires Lookup(t, tag).entries == Lookup(u, tag).entries
    ensures Dispatch(t, tag, sig) == Dispatch(u, tag, sig)
  {
    if tag !in t && tag in u {
      assert CallAll(u[tag], sig) == [];
    } else if tag in t && tag !in u {
      assert CallAll(t[tag], sig) == [];
    }
  }
}
