/**
 * An IndexedDB object store with an in-line key path, as the sequence that
 * `getAll()` returns: its records in ascending key order, one per key.
 * `key` extracts the record's key path value.
 */
module ObjectStore {
  import opened Wrappers
  import opened KeyOrder
  import Seqs

  /** What a rejected request reports. */
  datatype StoreError = ConstraintError

  /** Keys strictly ascend: at most one record per key, in `getAll()` order. */
  ghost predicate Ordered<R>(s: seq<R>, key: R -> Key) {
    forall i, j :: 0 <= i < j < |s| ==> KeyLess(key(s[i]), key(s[j]))
  }

  /** `store.get(k)`. */
  function Get<R(==)>(s: seq<R>, key: R -> Key, k: Key): (r: Option<R>)
    ensures r.Some? ==> r.value in s && key(r.value) == k
    ensures r.None? ==> forall i :: 0 <= i < |s| ==> key(s[i]) != k
  {
    if s == [] then None
    else if key(s[0]) == k then Some(s[0])
    else Get(s[1..], key, k)
  }

  /** In an ordered store, `get` finds exactly the members with that key. */
  lemma GetMember<R>(s: seq<R>, key: R -> Key, x: R)
    requires Ordered(s, key) && x in s
    ensures Get(s, key, key(x)) == Some(x)
  {
    var y := Get(s, key, key(x)).value;
    var i :| 0 <= i < |s| && s[i] == x;
    var j :| 0 <= j < |s| && s[j] == y;
    if i < j || j < i { KeyLessIrreflexive(key(x)); }
  }

  /** `store.put(r)`: insert `r`, replacing the record with the same key. */
  function Put<R(!new,==)>(s: seq<R>, key: R -> Key, r: R): (t: seq<R>)
    requires Ordered(s, key)
    ensures Ordered(t, key)
    ensures forall x :: x in t <==> x == r || (x in s && key(x) != key(r))
    ensures |t| == if Get(s, key, key(r)).Some? then |s| else |s| + 1
  {
    if s == [] then [r]
    else if key(s[0]) == key(r) then
      PutHeadTail(s, key);
      [r] + s[1..]
    else if KeyLess(key(r), key(s[0])) then
      PutBefore(s, key, r);
      [r] + s
    else
      KeyLessTotal(key(r), key(s[0]));
      var t := Put(s[1..], key, r);
      PutAfter(s, key, r, t);
      [s[0]] + t
  }

  lemma PutHeadTail<R>(s: seq<R>, key: R -> Key)
    requires Ordered(s, key) && s != []
    ensures forall x :: x in s[1..] ==> key(x) != key(s[0])
    ensures forall x :: x in s ==> x == s[0] || x in s[1..]
  {
    forall x | x in s[1..] ensures key(x) != key(s[0]) {
      var i :| 0 <= i < |s[1..]| && s[1..][i] == x;
      assert KeyLess(key(s[0]), key(s[i + 1]));
      KeyLessIrreflexive(key(s[0]));
    }
  }

  lemma PutBefore<R>(s: seq<R>, key: R -> Key, r: R)
    requires Ordered(s, key) && s != [] && KeyLess(key(r), key(s[0]))
    ensures Ordered([r] + s, key)
    ensures forall x :: x in s ==> key(x) != key(r)
  {
    forall i | 0 < i < |s| ensures KeyLess(key(r), key(s[i])) {
      KeyLessTransitive(key(r), key(s[0]), key(s[i]));
    }
    forall x | x in s ensures key(x) != key(r) {
      var i :| 0 <= i < |s| && s[i] == x;
      KeyLessIrreflexive(key(r));
    }
  }

  lemma PutAfter<R>(s: seq<R>, key: R -> Key, r: R, t: seq<R>)
    requires Ordered(s, key) && s != [] && KeyLess(key(s[0]), key(r))
    requires Ordered(t, key)
    requires forall x :: x in t <==> x == r || (x in s[1..] && key(x) != key(r))
    ensures Ordered([s[0]] + t, key)
  {
    forall j | 0 <= j < |t| ensures KeyLess(key(s[0]), key(t[j])) {
      assert t[j] in t;
      if t[j] != r {
        var i :| 0 <= i < |s[1..]| && s[1..][i] == t[j];
        assert s[i + 1] == t[j];
      }
    }
  }

  /** `store.add(r)`: like `put`, but a record with the same key makes the request fail. */
  function Add<R(!new,==)>(s: seq<R>, key: R -> Key, r: R): (res: Result<seq<R>, StoreError>)
    requires Ordered(s, key)
    ensures res.Err? <==> Get(s, key, key(r)).Some?
    ensures res.Ok? ==> res.value == Put(s, key, r)
  {
    if Get(s, key, key(r)).Some? then Err(ConstraintError) else Ok(Put(s, key, r))
  }

  /** `store.delete(k)`: remove the record with key `k`, if any. */
  function Delete<R(!new,==)>(s: seq<R>, key: R -> Key, k: Key): (t: seq<R>)
    requires Ordered(s, key)
    ensures Ordered(t, key)
    ensures forall x :: x in t <==> x in s && key(x) != k
    ensures |t| == if Get(s, key, k).Some? then |s| - 1 else |s|
  {
    if s == [] then []
    else if key(s[0]) == k then
      PutHeadTail(s, key);
      s[1..]
    else
      var t := Delete(s[1..], key, k);
      DeleteKeepsOrder(s, key, k, t);
      [s[0]] + t
  }

  lemma DeleteKeepsOrder<R>(s: seq<R>, key: R -> Key, k: Key, t: seq<R>)
    requires Ordered(s, key) && s != []
    requires Ordered(t, key)
    requires forall x :: x in t ==> x in s[1..]
    ensures Ordered([s[0]] + t, key)
  {
    forall j | 0 <= j < |t| ensures KeyLess(key(s[0]), key(t[j])) {
      assert t[j] in t;
      var i :| 0 <= i < |s[1..]| && s[1..][i] == t[j];
      assert s[i + 1] == t[j];
    }
  }

  /** Deleting a key the store does not hold leaves it as it was. */
  lemma {:induction false} DeleteAbsent<R(!new)>(s: seq<R>, key: R -> Key, k: Key)
    requires Ordered(s, key) && Get(s, key, k).None?
    ensures Delete(s, key, k) == s
  {
    if s != [] {
      DeleteAbsent(s[1..], key, k);
    }
  }

  /** After `put(r)`, `get` finds `r` under its key and the old record under every other key. */
  lemma {:induction false} GetAfterPut<R(!new)>(s: seq<R>, key: R -> Key, r: R, k: Key)
    requires Ordered(s, key)
    ensures Get(Put(s, key, r), key, k) == if k == key(r) then Some(r) else Get(s, key, k)
  {
    var t := Put(s, key, r);
    if k == key(r) {
      GetMember(t, key, r);
    } else {
      match Get(s, key, k)
      case Some(x) =>
        assert x in t;
        GetMember(t, key, x);
      case None =>
        forall y | y in t ensures key(y) != k {
          if y != r {
            var i :| 0 <= i < |s| && s[i] == y;
          }
        }
    }
  }

  /** `GetAfterPut` for every key at once. */
  lemma GetAfterPutAll<R(!new)>(s: seq<R>, key: R -> Key, r: R)
    requires Ordered(s, key)
    ensures forall k :: Get(Put(s, key, r), key, k) == if k == key(r) then Some(r) else Get(s, key, k)
  {
    forall k ensures Get(Put(s, key, r), key, k) == if k == key(r) then Some(r) else Get(s, key, k) {
      GetAfterPut(s, key, r, k);
    }
  }

  /** After `delete(k)`, `get(k)` finds nothing and every other key is as before. */
  lemma GetAfterDelete<R(!new)>(s: seq<R>, key: R -> Key, k: Key, k2: Key)
    requires Ordered(s, key)
    ensures Get(Delete(s, key, k), key, k2) == if k2 == k then None else Get(s, key, k2)
  {
    var t := Delete(s, key, k);
    if k2 != k {
      match Get(s, key, k2)
      case Some(x) =>
        assert x in t;
        GetMember(t, key, x);
      case None =>
    }
  }

  /** Deleting the first key of an ordered store drops its first record. */
  lemma DeleteFirst<R(!new)>(s: seq<R>, key: R -> Key)
    requires Ordered(s, key) && s != []
    ensures Delete(s, key, key(s[0])) == s[1..]
  {
  }

  /** Filtering an ordered store (as `getAll().filter(...)` does) keeps it ordered. */
  lemma {:induction false} FilterOrdered<R(!new)>(s: seq<R>, key: R -> Key, p: R -> bool)
    requires Ordered(s, key)
    ensures Ordered(Seqs.Filter(s, p), key)
  {
    if s != [] {
      FilterOrdered(s[1..], key, p);
      var t := Seqs.Filter(s[1..], p);
      if p(s[0]) {
        forall j | 0 <= j < |t| ensures KeyLess(key(s[0]), key(t[j])) {
          assert t[j] in s[1..];
          var i :| 1 <= i < |s| && s[i] == t[j];
        }
        assert Seqs.Filter(s, p) == [s[0]] + t;
      } else {
        assert Seqs.Filter(s, p) == t;
      }
    }
  }
}
