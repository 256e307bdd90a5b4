/**
 * The subject: a copy-on-write registry of observers and the liveness of its
 * mutex. `functions` is the currently published registry object (the target
 * of `functions_`); writers replace it with a fresh copy before changing it,
 * so every registry object that was published earlier, and that a reader may
 * still hold, keeps its contents.
 */
module Observable {
  import opened Wrappers
  import opened Signatures
  import opened FunctionCollection
  import opened Registry

  /** One published registry version (the `collection_map` a `shared_ptr` points to). */
  class CollectionMap {
    var table: Table

    constructor (t: Table)
      ensures table == t
    {
      table := t;
    }
  }

  /** What the cancellation action of a subscription handle captures. */
  datatype Subscription = Subscription(tag: Tag, id: Id)

  class Subject {
    var functions: CollectionMap
    /** Whether `mutex_` still exists, i.e. whether a handle's `weak_ptr` to it can be locked. */
    var alive: bool

    ghost predicate Valid()
      reads this, functions
    {
      TableValid(functions.table)
    }

    /** An empty subject. */
    constructor ()
      ensures Valid() && alive && fresh(functions)
      ensures functions.table == map[]
    {
      functions := new CollectionMap(map[]);
      alive := true;
    }

    /** `detail::snapshot`: publish a private copy of the registry, leaving the
        previously published object untouched. */
    method Snapshot()
      requires Valid()
      modifies this
      ensures Valid() && alive == old(alive)
      ensures fresh(functions) && functions.table == old(functions.table)
      ensures unchanged(old(functions))
    {
      functions := new CollectionMap(functions.table);
    }

    /** `subscribe(tag, fn)`. An incompatible callback is rejected before
        anything happens; otherwise the callback is inserted into a fresh copy
        of the registry under `tag` and the returned subscription names it. */
    method Subscribe(tag: Tag, fn: Callback) returns (r: Result<Subscription, seq<CompatError>>)
      requires Valid() && alive
      modifies this
      ensures Valid() && alive
      ensures r.Err? <==> CheckCompatibility(fn.ty) != []
      ensures r.Err? ==> r.error == CheckCompatibility(fn.ty) && functions == old(functions)
      ensures r.Ok? ==>
                && fresh(functions)
                && r.value.tag == tag
                && (functions.table, r.value.id) == Subscribed(old(functions.table), tag, fn)
      ensures unchanged(old(functions))
    {
      var errs := CheckCompatibility(fn.ty);
      if errs != [] {
        return Err(errs);
      }
      Snapshot();
      ghost var published := functions.table;
      if tag !in functions.table {
        // operator[] default-constructs the collection of a new tag
        functions.table := functions.table[tag := Empty];
      }
      assert functions.table[tag] == Lookup(published, tag);
      SubscribedValid(published, tag, fn);
      var (c, id) := Insert(functions.table[tag], SignatureOf(fn.ty), fn);
      functions.table := functions.table[tag := c];
      assert functions.table == published[tag := c];
      r := Ok(Subscription(tag, id));
    }

    /** `subscribe(fn)`: a subscription under `Tag{}`. */
    method SubscribeUntagged(fn: Callback) returns (r: Result<Subscription, seq<CompatError>>)
      requires Valid() && alive
      modifies this
      ensures Valid() && alive
      ensures r.Err? <==> CheckCompatibility(fn.ty) != []
      ensures r.Err? ==> r.error == CheckCompatibility(fn.ty) && functions == old(functions)
      ensures r.Ok? ==>
                && fresh(functions)
                && r.value.tag == NoTag
                && (functions.table, r.value.id) == Subscribed(old(functions.table), NoTag, fn)
      ensures unchanged(old(functions))
    {
      r := Subscribe(NoTag, fn);
    }

    /** The cancellation action of a subscription handle (`detail::unsubscribe`):
        a no-op once the subject's mutex is gone; otherwise a fresh copy of the
        registry is published and the entry removed from it, if its tag is present. */
    method Unsubscribe(s: Subscription)
      requires Valid()
      modifies this
      ensures Valid() && alive == old(alive)
      ensures !old(alive) ==> functions == old(functions)
      ensures old(alive) ==>
                fresh(functions) && functions.table == Unsubscribed(old(functions.table), s.tag, s.id)
      ensures unchanged(old(functions))
    {
      if !alive {
        return;
      }
      Snapshot();
      if s.tag !in functions.table {
        return;
      }
      UnsubscribedValid(functions.table, s.tag, s.id);
      functions.table := functions.table[s.tag := Remove(functions.table[s.tag], s.id)];
    }

    /** `notify_tagged(tag, args...)`: reads the published registry once and
        returns the entries it invokes, in invocation order. */
    method NotifyTagged(tag: Tag, args: seq<Param>) returns (fired: seq<Entry>)
      requires Valid() && alive
      ensures fired == Dispatch(functions.table, tag, Normalize(args))
      ensures tag !in functions.table ==> fired == []
      ensures forall e :: e in fired <==>
                tag in functions.table && e in functions.table[tag].entries && e.sig == Normalize(args)
      ensures IsSubsequence(fired, Lookup(functions.table, tag).entries) && Increasing(fired)
    {
      var snapshot := functions;
      var table := snapshot.table;
      if tag !in table {
        return [];
      }
      var sig := Normalize(args);
      // the compatibility check `detail::call` applies to the argument signature never fails
      NormalizedIsCompatible(args);
      assert CheckCompatibility(NormalizedType(args)) == [];
      fired := CallAll(table[tag], sig);
      CallAllInInsertionOrder(table[tag], sig);
    }

    /** `notify_untagged(args...)`: a notification under `Tag{}`. */
    method NotifyUntagged(args: seq<Param>) returns (fired: seq<Entry>)
      requires Valid() && alive
      ensures fired == Dispatch(functions.table, NoTag, Normalize(args))
    {
      fired := NotifyTagged(NoTag, args);
    }

    /** The end of the subject's lifetime: its mutex is released, so every
        outstanding handle's `weak_ptr` expires. */
    method Destroy()
      modifies this
      ensures !alive && functions == old(functions)
    {
      alive := false;
    }
  }
}
