/**
 * The callable collection kept for one tag (`detail::function_collection`).
 * The collection's own header is not part of this model; this module gives
 * the smallest value type that meets the contract the subject relies on:
 * `insert` returns an id no stored entry holds, `remove` drops the entry with
 * that id, and `call_all` selects the entries whose normalized signature is
 * exactly the requested one, in insertion order.
 */
module FunctionCollection {
  import opened Signatures

  type Id = nat

  /** A stored callable; `name` identifies the callable object. */
  datatype Callback = Callback(name: string, ty: FunctionType)

  /** One `(id, signature, callback)` entry. */
  datatype Entry = Entry(id: Id, sig: Signature, fn: Callback)

  /** Entries in insertion order and the id the next insertion receives. */
  datatype Collection = Collection(entries: seq<Entry>, nextId: Id)

  /** The collection `operator[]` default-constructs for an absent tag. */
  const Empty: Collection := Collection([], 0)

  /** Ids strictly increase along the sequence: later insertions, larger ids. */
  ghost predicate Increasing(s: seq<Entry>) {
    forall i, j :: 0 <= i < j < |s| ==> s[i].id < s[j].id
  }

  /** Ids are unique, increase with insertion order and were all handed out. */
  ghost predicate Valid(c: Collection) {
    && Increasing(c.entries)
    && forall e :: e in c.entries ==> e.id < c.nextId
  }

  /** `r` is `s` with some elements left out, the rest in their original order. */
  predicate IsSubsequence(r: seq<Entry>, s: seq<Entry>)
    decreases |s|
  {
    if s == [] then r == []
    else (r != [] && r[0] == s[0] && IsSubsequence(r[1..], s[1..])) || IsSubsequence(r, s[1..])
  }

  /** The entries of `s` that `keep` selects, in their order in `s`. */
  function Filter(s: seq<Entry>, keep: Entry -> bool): (r: seq<Entry>)
    ensures |r| <= |s|
  {
    if s == [] then []
    else if keep(s[0]) then [s[0]] + Filter(s[1..], keep)
    else Filter(s[1..], keep)
  }

  lemma {:induction false} FilterMembers(s: seq<Entry>, keep: Entry -> bool)
    ensures forall e :: e in Filter(s, keep) <==> e in s && keep(e)
  {
    if s != [] {
      FilterMembers(s[1..], keep);
      assert s == [s[0]] + s[1..];
    }
  }

  function HasSig(sig: Signature): Entry -> bool {
    (e: Entry) => e.sig == sig
  }

  function LacksId(id: Id): Entry -> bool {
    (e: Entry) => e.id != id
  }

  /** `insert<signature>(function)`: appends one entry under the next id. */
  function Insert(c: Collection, sig: Signature, fn: Callback): (r: (Collection, Id))
    ensures r.0.entries == c.entries + [Entry(r.1, sig, fn)]
    ensures r.1 == c.nextId && r.0.nextId > r.1
  {
    (Collection(c.entries + [Entry(c.nextId, sig, fn)], c.nextId + 1), c.nextId)
  }

  /** `remove(id)`: drops the entries holding `id`, keeping the rest in order. */
  function Remove(c: Collection, id: Id): (r: Collection)
    ensures r.nextId == c.nextId
    ensures forall e :: e in r.entries <==> e in c.entries && e.id != id
    ensures IsSubsequence(r.entries, c.entries)
  {
    FilterMembers(c.entries, LacksId(id));
    FilterIsSubsequence(c.entries, LacksId(id));
    Collection(Filter(c.entries, LacksId(id)), c.nextId)
  }

  /** `call_all<signature>(...)`: the entries that fire, in the order they fire. */
  function CallAll(c: Collection, sig: Signature): (fired: seq<Entry>)
    ensures forall e :: e in fired <==> e in c.entries && e.sig == sig
    ensures IsSubsequence(fired, c.entries)
  {
    FilterMembers(c.entries, HasSig(sig));
    FilterIsSubsequence(c.entries, HasSig(sig));
    Filter(c.entries, HasSig(sig))
  }

  /** The id an insertion returns is held by no entry already stored, and the
      collection stays valid. */
  lemma InsertFresh(c: Collection, sig: Signature, fn: Callback)
    requires Valid(c)
    ensures Valid(Insert(c, sig, fn).0)
    ensures forall e :: e in c.entries ==> e.id != Insert(c, sig, fn).1
  {
  }

  /** Removal keeps a collection valid. */
  lemma RemoveValid(c: Collection, id: Id)
    requires Valid(c)
    ensures Valid(Remove(c, id))
  {
    FilterIncreasing(c.entries, LacksId(id));
  }

  /** The entries that fire do so in insertion order, each once: their ids
      strictly increase. */
  lemma CallAllInInsertionOrder(c: Collection, sig: Signature)
    requires Valid(c)
    ensures Increasing(CallAll(c, sig))
  {
    FilterIncreasing(c.entries, HasSig(sig));
  }

  lemma {:induction false} FilterIsSubsequence(s: seq<Entry>, keep: Entry -> bool)
    ensures IsSubsequence(Filter(s, keep), s)
  {
    if s != [] {
      FilterIsSubsequence(s[1..], keep);
      var rest := Filter(s[1..], keep);
      if keep(s[0]) {
        assert Filter(s, keep) == [s[0]] + rest;
        assert ([s[0]] + rest)[1..] == rest;
      } else {
        assert Filter(s, keep) == rest;
      }
    }
  }

  lemma {:induction false} FilterIncreasing(s: seq<Entry>, keep: Entry -> bool)
    ensures Increasing(s) ==> Increasing(Filter(s, keep))
  {
    if s != [] && Increasing(s) {
      FilterIncreasing(s[1..], keep);
      FilterMembers(s[1..], keep);
      var rest := Filter(s[1..], keep);
      forall k | 0 <= k < |rest| ensures s[0].id < rest[k].id {
        assert rest[k] in s[1..];
      }
    }
  }

  lemma {:induction false} FilterAppend(s: seq<Entry>, t: seq<Entry>, keep: Entry -> bool)
    ensures Filter(s + t, keep) == Filter(s, keep) + Filter(t, keep)
  {
    if s == [] {
      assert s + t == t;
    } else {
      var st := s + t;
      assert st[0] == s[0] && st[1..] == s[1..] + t;
      FilterAppend(s[1..], t, keep);
      if keep(s[0]) {
        assert Filter(st, keep) == [s[0]] + Filter(s[1..] + t, keep);
        assert Filter(s, keep) == [s[0]] + Filter(s[1..], keep);
      } else {
        assert Filter(st, keep) == Filter(s[1..] + t, keep);
        assert Filter(s, keep) == Filter(s[1..], keep);
      }
    }
  }

  lemma {:induction false} FilterIdempotent(s: seq<Entry>, keep: Entry -> bool)
    ensures Filter(Filter(s, keep), keep) == Filter(s, keep)
  {
    if s != [] {
      FilterIdempotent(s[1..], keep);
      var rest := Filter(s[1..], keep);
      if keep(s[0]) {
        var fs := [s[0]] + rest;
        assert Filter(s, keep) == fs;
        assert fs != [] && fs[0] == s[0] && fs[1..] == rest;
      } else {
        assert Filter(s, keep) == rest;
      }
    }
  }

  lemma {:induction false} FilterKeepsAll(s: seq<Entry>, keep: Entry -> bool)
    requires forall e :: e in s ==> keep(e)
    ensures Filter(s, keep) == s
  {
    if s != [] {
      assert s[0] in s;
      FilterKeepsAll(s[1..], keep);
    }
  }

  /** Inserting an entry and removing it by the returned id gives back the
      original entries. */
  lemma InsertThenRemove(c: Collection, sig: Signature, fn: Callback)
    requires Valid(c)
    ensures Remove(Insert(c, sig, fn).0, Insert(c, sig, fn).1).entries == c.entries
  {
    var (c1, id) := Insert(c, sig, fn);
    FilterAppend(c.entries, [Entry(id, sig, fn)], LacksId(id));
    FilterKeepsAll(c.entries, LacksId(id));
    assert [Entry(id, sig, fn)][1..] == [];
  }

  /** Ids are unique, so removing one that is held drops exactly that entry
      and keeps every other in place. */
  lemma RemoveExactlyOne(c: Collection, k: nat)
    requires Valid(c) && k < |c.entries|
    ensures Remove(c, c.entries[k].id).entries == c.entries[..k] + c.entries[k + 1..]
  {
    var s := c.entries;
    var pre, x, post := s[..k], s[k], s[k + 1..];
    forall e | e in pre ensures LacksId(x.id)(e) {
      var i :| 0 <= i < |pre| && pre[i] == e;
      assert s[i] == e;
    }
    forall e | e in post ensures LacksId(x.id)(e) {
      var i :| 0 <= i < |post| && post[i] == e;
      assert s[k + 1 + i] == e;
    }
    FilterSkipsOne(pre, x, post, LacksId(x.id));
    assert s == pre + [x] + post;
  }

  /** Filtering out one element that `keep` rejects, between runs it accepts. */
  lemma FilterSkipsOne(pre: seq<Entry>, x: Entry, post: seq<Entry>, keep: Entry -> bool)
    requires forall e :: e in pre ==> keep(e)
    requires forall e :: e in post ==> keep(e)
    requires !keep(x)
    ensures Filter(pre + [x] + post, keep) == pre + post
  {
    FilterAppend(pre + [x], post, keep);
    FilterAppend(pre, [x], keep);
    FilterKeepsAll(pre, keep);
    FilterKeepsAll(post, keep);
    assert [x][1..] == [];
    assert Filter([x], keep) == [];
  }

  /** Removing the same id twice has no further effect. */
  lemma RemoveIdempotent(c: Collection, id: Id)
    ensures Remove(Remove(c, id), id) == Remove(c, id)
  {
    FilterIdempotent(c.entries, LacksId(id));
  }

  /** Once an id is removed, a later insertion neither reissues it nor makes
      a second removal of it do anything. */
  lemma StaleRemoveAfterInsert(c: Collection, id: Id, sig: Signature, fn: Callback)
    requires Valid(c) && id < c.nextId
    ensures var (c2, id2) := Insert(Remove(c, id), sig, fn);
      id2 != id && Remove(c2, id) == c2
  {
    var c1 := Remove(c, id);
    var (c2, id2) := Insert(c1, sig, fn);
    forall e | e in c2.entries ensures LacksId(id)(e) {
      assert e in c1.entries + [Entry(id2, sig, fn)];
    }
    FilterKeepsAll(c2.entries, LacksId(id));
  }

  /** The entries that fire after an insertion: those that fired before, then
      the new entry when its signature matches. */
  lemma CallAllAfterInsert(c: Collection, sig: Signature, fn: Callback, wanted: Signature)
    ensures CallAll(Insert(c, sig, fn).0, wanted)
         == CallAll(c, wanted) + (if sig == wanted then [Entry(Insert(c, sig, fn).1, sig, fn)] else [])
  {
    var (c1, id) := Insert(c, sig, fn);
    FilterAppend(c.entries, [Entry(id, sig, fn)], HasSig(wanted));
  }
}
