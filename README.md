# observable: the subject's copy-on-write observer registry, in Dafny

This project models `observable::subject<Tag>` (`include/observable/subject.hpp`),
an in-process publish/subscribe registry. Observers subscribe a callback,
optionally under a tag value, and receive a cancellation handle. A notification
under a tag invokes, in subscription order, every callback stored under that
tag whose normalized parameter signature equals the normalized signature of
the notification's arguments. Writers (subscribe and the handle's
unsubscribe action) never change a registry object that was published before
the write began: they first replace the subject's registry pointer with a
fresh copy (`detail::snapshot`), publishing it, and then change only that
copy. A reader that captured the previous registry therefore keeps a
consistent view.

Modules:

- `Signatures` (signatures.dfy): parameter and function types, the normalized
  signature used as the dispatch key, and `detail::check_compatibility` as a
  function returning the diagnostics of its two static assertions.
- `FunctionCollection` (function_collection.dfy): the per-tag callable
  collection as a value. Entries are kept in insertion order, and each
  insertion gets the next id. `Insert`, `Remove` and `CallAll` model
  `insert`, `remove` and `call_all`.
- `Registry` (registry.dfy): the tag-indexed `collection_map` as a value. It
  holds the pure transitions `Subscribed`, `Unsubscribed` and `Dispatch`, and
  the lemmas about them: tag isolation, exact signature matching, insertion
  order, id uniqueness, removing exactly one entry, idempotent cancellation,
  and the observational round trip of subscribe-then-cancel.
- `Observable` (subject.dfy): the `Subject` class. Its field `functions`
  points to a heap object `CollectionMap`, which models the target of the
  `functions_` shared pointer. Its field `alive` models whether `mutex_` still
  exists, that is, whether a handle's `weak_ptr` can still be locked. A
  subscribe that passes the compatibility check, and an unsubscribe on a live
  subject, allocate a fresh `CollectionMap` and change only that one, and
  their contracts say so (`fresh(functions)`, `unchanged(old(functions))`).
  A rejected subscribe and an unsubscribe on a destroyed subject change
  nothing at all.
- `Scenarios` (scenarios.dfy): client programs written against the
  contracts of `Subject` and the `Registry` lemmas. They cover untagged subscribe, notify and cancel; two
  tags acting as separate channels; exact signature matching; the rejection
  of incompatible callbacks; cancelling after the subject is destroyed; and a
  notification that keeps its snapshot across a later write.

The tag type is the template's default argument, `std::string`. `Tag{}`, the
untagged sentinel, is the empty string `NoTag`. Running a callback's
side effects is replaced by returning the sequence of entries a notification
invokes.

Two points of the code shape the model:

- The code publishes the fresh copy first: `snapshot` assigns `functions_` at
  line 104. It then mutates that published copy in place, through
  `operator[]`/`insert` at lines 145-146 and `remove` at line 123, after the
  lock is released. `Subject.Subscribe` and `Subject.Unsubscribe` do the
  same.
- The handle's action captures `this` (line 149) and reaches the registry
  through it. Accordingly, the action is modelled as a method of `Subject`
  (`Subject.Unsubscribe`), guarded by `alive`.

## Model

| member | source | states |
|---|---|---|
| `Signatures.Normalize` | include/observable/subject.hpp:139-140 | the normalized signature has one entry per parameter: that parameter's base type, in order, with const and reference removed |
| `Signatures.AcceptsNormalized` | include/observable/subject.hpp:82-86 | a `std::function` of the declared parameters converts to one of the normalized parameters exactly when no parameter is a non-const lvalue reference |
| `Signatures.CheckCompatibility` | include/observable/subject.hpp:74-87 | no diagnostic exactly when the return type is void and no parameter is a non-const lvalue reference; `ReturnsValue` exactly when the return is not void; `MutableReferenceParameter` exactly when some parameter is a non-const lvalue reference; the diagnostics come in source order |
| `Signatures.NormalizedIsCompatible` | include/observable/subject.hpp:93-94 | the check applied to the normalized argument signature never fails, and normalizing that signature again changes nothing |
| `FunctionCollection.Insert` | include/observable/subject.hpp:146 | insertion appends exactly one entry carrying the returned id, the signature and the callback; the returned id is the collection's next id, and the next id handed out afterwards lies beyond it |
| `FunctionCollection.InsertFresh` | include/observable/subject.hpp:146 | in a valid collection, the returned id is held by no stored entry, and validity (increasing, issued ids) is kept |
| `FunctionCollection.Remove` | include/observable/subject.hpp:123 | removal keeps exactly the entries with other ids, in their original order, and does not reuse ids |
| `FunctionCollection.RemoveValid` | include/observable/subject.hpp:123 | removal keeps a collection valid |
| `FunctionCollection.RemoveExactlyOne` | include/observable/subject.hpp:123 | removing the id of the k-th entry of a valid collection yields the entries with only that one cut out |
| `FunctionCollection.RemoveIdempotent` | include/observable/subject.hpp:123 | removing the same id a second time has no effect |
| `FunctionCollection.InsertThenRemove` | include/observable/subject.hpp:146-150 | removing the id an insertion returned restores the collection's entries |
| `FunctionCollection.StaleRemoveAfterInsert` | include/observable/subject.hpp:146-150 | after an id has been removed, a later insertion returns a different id, and removing the old id again leaves the new collection unchanged |
| `FunctionCollection.CallAll` | include/observable/subject.hpp:96 | `call_all` selects exactly the stored entries whose signature equals the requested one, as a subsequence of insertion order |
| `FunctionCollection.CallAllInInsertionOrder` | include/observable/subject.hpp:96 | in a valid collection the selected entries' ids strictly increase: each fires once, earlier subscriptions first |
| `FunctionCollection.CallAllAfterInsert` | include/observable/subject.hpp:96 | after an insertion, the entries that fire are those that fired before, followed by the new entry exactly when its signature matches |
| `Registry.Lookup` | include/observable/subject.hpp:145 | `operator[]` yields the stored collection, or an empty valid collection for an absent tag |
| `Registry.Subscribed` | include/observable/subject.hpp:143-146 | subscribing adds `tag` to the registry's keys, leaves every other tag's collection unchanged, and under `tag` yields the previous entries plus exactly one new entry (an empty collection is created when the tag was absent) |
| `Registry.SubscribedValid` | include/observable/subject.hpp:146 | subscribing keeps the registry valid, and only the new entry holds the new id under that tag |
| `Registry.Unsubscribed` | include/observable/subject.hpp:117-123 | an absent tag leaves the registry unchanged; otherwise the same keys, other tags unchanged, and under `tag` exactly the entries with other ids |
| `Registry.UnsubscribedValid` | include/observable/subject.hpp:117-123 | unsubscribing keeps the registry valid |
| `Registry.Dispatch` | include/observable/subject.hpp:167-172 | a notification on an absent tag invokes nothing; otherwise it invokes exactly the entries stored under that tag whose signature equals the arguments' signature, in insertion order (a subsequence) |
| `Registry.DispatchInSubscriptionOrder` | include/observable/subject.hpp:168-172 | in a valid registry, the invoked ids strictly increase: each entry is invoked once, in subscription order |
| `Registry.DispatchAfterSubscribe` | include/observable/subject.hpp:145-146 | after a subscription, a notification under its tag invokes what it did before, then the new callback exactly when the signatures match |
| `Registry.SubscribeIsolatesTags` | include/observable/subject.hpp:145-146 | subscribing under one tag does not change what a notification under any other tag invokes |
| `Registry.UnsubscribeIsolatesTags` | include/observable/subject.hpp:119-123 | unsubscribing under one tag does not change what a notification under any other tag invokes |
| `Registry.UnsubscribedNeverFires` | include/observable/subject.hpp:123 | after unsubscribing an id, no notification under that tag invokes an entry with that id |
| `Registry.UnsubscribeRemovesExactlyOne` | include/observable/subject.hpp:119-123 | unsubscribing the id of the k-th entry under a tag removes that entry and keeps all others in order |
| `Registry.UnsubscribeIdempotent` | include/observable/subject.hpp:117-123 | triggering the same cancellation twice has the effect of triggering it once |
| `Registry.StaleCancelAfterSubscribe` | include/observable/subject.hpp:117-123 | once an id issued under a tag has been cancelled, a later subscription under that tag gets a different id, and triggering the old cancellation again changes nothing |
| `Registry.Apply` | include/observable/subject.hpp:117-146 | a sequence of subscribe and unsubscribe writes never drops a tag from the registry (`remove` only empties a collection) |
| `Registry.SubscribeKeepsGone` | include/observable/subject.hpp:145-146 | a subscription under any tag keeps an issued-and-removed id both unissued again and absent from its tag's entries, and keeps the registry valid |
| `Registry.UnsubscribeKeepsGone` | include/observable/subject.hpp:117-123 | an unsubscription under any tag does the same |
| `Registry.StaysGone` | include/observable/subject.hpp:117-146 | after any sequence of later writes, a removed id is still absent from its tag's entries and is never handed out again |
| `Registry.CancelGoneIsNoop` | include/observable/subject.hpp:117-123 | cancelling an id that is no longer stored leaves the registry identical |
| `Registry.NeverFiresAgain` | include/observable/subject.hpp:167-172 | once cancelled, a subscription is invoked by no notification under its tag after any sequence of later writes |
| `Registry.StaleCancelAfterWrites` | include/observable/subject.hpp:117-123 | triggering a cancellation again, after any sequence of later writes, leaves the registry identical |
| `Registry.SubscribeThenUnsubscribe` | include/observable/subject.hpp:143-150 | subscribing and then running the returned handle's action restores the outcome of every notification, under every tag and signature |
| `Registry.DispatchDependsOnTagOnly` | include/observable/subject.hpp:168-172 | two registries with the same entries under a tag give the same notification outcome under it |
| `Observable.CollectionMap.constructor` | include/observable/subject.hpp:67 | a registry object holds the table it is built from |
| `Observable.Subject.constructor` | include/observable/subject.hpp:50 | a new subject has an empty registry and a live mutex |
| `Observable.Subject.Snapshot` | include/observable/subject.hpp:99-105 | the published registry is replaced by a fresh object with the same contents; the object published before is untouched |
| `Observable.Subject.Subscribe` | include/observable/subject.hpp:135-153 | an incompatible callback is rejected with the check's diagnostics and nothing changes; otherwise a fresh registry equal to `Subscribed(old, tag, fn)` is published, the subscription names `tag` and the new id, and the earlier registry object is unchanged |
| `Observable.Subject.SubscribeUntagged` | include/observable/subject.hpp:127-133 | exactly `Subscribe(NoTag, fn)` |
| `Observable.Subject.Unsubscribe` | include/observable/subject.hpp:107-124 | a no-op once the mutex is gone; otherwise a fresh registry equal to `Unsubscribed(old, tag, id)` is published, even when the tag is absent, and the earlier registry object is unchanged |
| `Observable.Subject.NotifyTagged` | include/observable/subject.hpp:163-173 | returns `Dispatch` of the published registry: nothing for an absent tag, exactly the matching entries under the tag, in subscription order, with no state change |
| `Observable.Subject.NotifyUntagged` | include/observable/subject.hpp:155-161 | exactly a notification under `NoTag` |
| `Observable.Subject.Destroy` | include/observable/subject.hpp:68 | destroying the subject releases its mutex, so every outstanding handle's weak reference expires |
| `Scenarios.UntaggedSubscribeNotifyCancel` | include/observable/subject.hpp:127-161 | an untagged `int` callback fires once for `notify_untagged(5)` and not at all after its subscription is cancelled |
| `Scenarios.TagsAreSeparateChannels` | include/observable/subject.hpp:163-173 | with two callbacks under "a" and one under "b", notifying "a" fires the two in subscription order and notifying "b" fires only its own |
| `Scenarios.TwoTagsDispatch` | include/observable/subject.hpp:167-172 | the registry outcome behind that scenario, derived from the general lemmas |
| `Scenarios.SignaturesMatchExactly` | include/observable/subject.hpp:89-96 | an `(int)` callback is not fired by a `double` argument and is fired by an `int` one |
| `Scenarios.IncompatibleCallbacksRejected` | include/observable/subject.hpp:74-87 | a value-returning callback and a callback taking `int&` are both rejected, each with its own diagnostic |
| `Scenarios.CancelAfterDestroy` | include/observable/subject.hpp:113-115 | cancelling after the subject is destroyed leaves the registry exactly as it was |
| `Scenarios.NotifyObservesOneSnapshot` | include/observable/subject.hpp:167-172 | a notification holding the registry from before a subscribe (or a cancel) sees none of that write; one starting afterwards sees all of it |
| `Scenarios.WritersNeverTouchHeldSnapshots` | include/observable/subject.hpp:99-105 | on a live subject, any sequence of writes (subscribe or cancel, in any order) keeps the subject valid and live and leaves a registry object a reader holds unchanged |

## Left out

- Threads and locking. The `std::mutex` and `lock_guard`, the unsynchronized read of `functions_` in `notify_tagged` (line 167) and the in-place insert after the lock is released (lines 143-146) are concurrency matters. The model is sequential, and a snapshot is a registry object that a reader holds.
- Ownership and lifetimes. The `shared_ptr`/`weak_ptr` machinery reduces to the `alive` flag. `Subscribe`, `SubscribeUntagged`, `NotifyTagged` and `NotifyUntagged` require `alive`, because calling a member of a destroyed subject is undefined in the source.
- The move constructor and move assignment (lines 59-62), and the hazard of the handle's action capturing `this` (line 149), are address and lifetime matters that are not modelled.
- `detail::handle` and `detail::auto_handle`: their headers are not part of this model, and neither is their at-most-once guard. A handle's action is `Subject.Unsubscribe` applied to the captured `Subscription`. `Registry.UnsubscribeIdempotent` shows that triggering a cancellation twice in a row has the effect of triggering it once, and `Registry.StaleCancelAfterWrites` shows that triggering it again after any sequence of later writes changes nothing (`Registry.NeverFiresAgain`: the cancelled entry never fires again either).
- `detail::function_collection`: its header is not part of this model. `FunctionCollection` meets the contract the subject relies on (fresh ids, removal by id, `call_all` by exact signature in insertion order). Its ids are unbounded naturals, so the wrap-around of a fixed-width id counter is not modelled.
- `detail::function_traits`: its header is not part of this model. Normalization is taken to remove the reference and the const qualifier from each parameter; `volatile` is not modelled.
- `Signatures.CheckCompatibility`: the source rejects an incompatible callback at compile time with `static_assert`. The model returns the diagnostics as data, and `Subject.Subscribe` returns them as an error result without changing state.
- Type erasure, perfect forwarding and the callbacks' side effects. A notification returns the sequence of entries it invokes instead of running them.
