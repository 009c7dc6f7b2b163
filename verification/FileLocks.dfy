/**
  The lock table of FileLockManager as seen by any number of concurrent operations.

  A lock entry is an object with an identity: an operation locks the entry its own
  `lock_entry` variable points to, never "the lock of a path". That two operations on
  one path lock the same object is therefore a theorem (`SameEntry`), although entries
  are erased and created again while operations come and go.
*/
module FileLocks {
  import opened Basics

  type Tid = nat     // an operation instance
  type Id = nat      // a LockEntry object

  /** `lock_entry` of operation `t` for path `k`. */
  datatype Hold = Hold(t: Tid, k: Key)

  const COUNT_LIMIT: nat := 0x1_0000_0000  // ref_count is a uint32_t

  /** A LockEntry: its reference count and the state of its shared_mutex. */
  datatype Entry = Entry(count: nat, writer: Option<Tid>, readers: set<Tid>)

  /**
    `table` is `locks_`; `entries` are the LockEntry objects; `refs` the entry pointers
    held by running operations; `writing` and `reading` say which of them own the mutex.
    `leaked` and `owed` are history variables, read by no step: the references that ended
    without release_lock_ref, and for each path the operations that incremented its count
    and have not decremented it.
  */
  datatype Locks = Locks(
    table: map<Key, Id>,
    entries: map<Id, Entry>,
    refs: map<Hold, Id>,
    writing: set<Hold>,
    reading: set<Hold>,
    leaked: set<Hold>,
    owed: map<Key, set<Tid>>)

  const NO_LOCKS := Locks(map[], map[], map[], {}, {}, {}, map[])

  function Outstanding(s: Locks, k: Key): set<Tid> {
    if k in s.owed then s.owed[k] else {}
  }

  // ----- the atomic steps

  predicate CanAcquire(s: Locks, h: Hold, newId: Id) {
    && h !in s.refs && h !in s.leaked
    && newId !in s.entries
    && (h.k in s.table ==> s.table[h.k] in s.entries)
  }

  /** acquire_lock_ref under map_mutex_. */
  function Acquire(s: Locks, h: Hold, newId: Id): Locks
    requires CanAcquire(s, h, newId)
  {
    var id := if h.k in s.table then s.table[h.k] else newId;
    var e := if h.k in s.table then s.entries[id] else Entry(0, None, {});
    s.(table := s.table[h.k := id],
       entries := s.entries[id := e.(count := (e.count + 1) % COUNT_LIMIT)],
       refs := s.refs[h := id],
       owed := s.owed[h.k := Outstanding(s, h.k) + {h.t}])
  }

  /** The `path_key` half of release_lock_ref: it goes through the table, not the pointer. */
  function Drop(s: Locks, k: Key): Locks
    requires k in s.table ==> s.table[k] in s.entries
  {
    if k !in s.table then s
    else
      var id := s.table[k];
      var e := s.entries[id];
      var count := (e.count + COUNT_LIMIT - 1) % COUNT_LIMIT;
      s.(entries := s.entries[id := e.(count := count)],
         table := if count == 0 then s.table - {k} else s.table)
  }

  predicate CanRelease(s: Locks, h: Hold) {
    && h in s.refs && h !in s.writing && h !in s.reading
    && (h.k in s.table ==> s.table[h.k] in s.entries)
  }

  function Release(s: Locks, h: Hold): Locks
    requires CanRelease(s, h)
  {
    Drop(s, h.k).(refs := s.refs - {h}, owed := s.owed[h.k := Outstanding(s, h.k) - {h.t}])
  }

  /** The pointer goes out of scope without release_lock_ref. */
  function Leak(s: Locks, h: Hold): Locks
    requires CanRelease(s, h)
  {
    s.(refs := s.refs - {h}, leaked := s.leaked + {h})
  }

  predicate CanWrite(s: Locks, h: Hold) {
    && h in s.refs && s.refs[h] in s.entries
    && s.entries[s.refs[h]].writer.None? && s.entries[s.refs[h]].readers == {}
  }

  function LockWrite(s: Locks, h: Hold): Locks
    requires CanWrite(s, h)
  {
    var id := s.refs[h];
    s.(entries := s.entries[id := s.entries[id].(writer := Some(h.t))], writing := s.writing + {h})
  }

  predicate CanRead(s: Locks, h: Hold) {
    && h in s.refs && s.refs[h] in s.entries
    && h !in s.reading && s.entries[s.refs[h]].writer.None?
  }

  function LockRead(s: Locks, h: Hold): Locks
    requires CanRead(s, h)
  {
    var id := s.refs[h];
    var e := s.entries[id];
    s.(entries := s.entries[id := e.(readers := e.readers + {h.t})], reading := s.reading + {h})
  }

  predicate CanUnlock(s: Locks, h: Hold) {
    h in s.refs && s.refs[h] in s.entries && (h in s.writing || h in s.reading)
  }

  function Unlock(s: Locks, h: Hold): Locks
    requires CanUnlock(s, h)
  {
    var id := s.refs[h];
    var e := s.entries[id];
    if h in s.writing then
      s.(entries := s.entries[id := e.(writer := None)], writing := s.writing - {h})
    else
      s.(entries := s.entries[id := e.(readers := e.readers - {h.t})], reading := s.reading - {h})
  }

  // ----- the invariant

  /** Fewer than 2^32 references are outstanding for any path. */
  ghost predicate Bounded(s: Locks) {
    forall k :: |Outstanding(s, k)| < COUNT_LIMIT
  }

  /** A path is owed exactly by the operations whose reference is live or leaked. */
  ghost predicate Balanced(s: Locks) {
    forall t, k :: t in Outstanding(s, k) <==> Hold(t, k) in s.refs || Hold(t, k) in s.leaked
  }

  /** Exact reference accounting. */
  ghost predicate Counted(s: Locks) {
    && (forall k :: k in s.table ==> s.table[k] in s.entries)
    && (forall k :: k in s.table <==> Outstanding(s, k) != {})
    && (forall k :: k in s.table ==> s.entries[s.table[k]].count == |Outstanding(s, k)|)
  }

  /** No two paths share an entry. */
  ghost predicate Distinct(s: Locks) {
    forall j, k :: j in s.table && k in s.table && s.table[j] == s.table[k] ==> j == k
  }

  /** Every live pointer is the one entry now in the table. */
  ghost predicate Pointed(s: Locks) {
    && (forall h :: h in s.refs ==> h.k in s.table && s.refs[h] == s.table[h.k])
    && Distinct(s)
    && s.refs.Keys !! s.leaked
  }

  /** The mutexes agree with what the operations believe they own. */
  ghost predicate Owned(s: Locks) {
    && (forall h :: h in s.writing ==>
          h in s.refs && s.refs[h] in s.entries && s.entries[s.refs[h]].writer == Some(h.t))
    && (forall h :: h in s.reading ==>
          h in s.refs && s.refs[h] in s.entries && h.t in s.entries[s.refs[h]].readers)
    && (forall k :: k in s.table && s.table[k] in s.entries ==>
          var e := s.entries[s.table[k]];
          && (e.writer.Some? ==> Hold(e.writer.value, k) in s.writing && e.readers == {})
          && (forall t :: t in e.readers ==> Hold(t, k) in s.reading))
  }

  ghost predicate Sound(s: Locks) {
    Balanced(s) && Counted(s) && Pointed(s) && Owned(s)
  }

  // ----- what the invariant gives

  /** Two operations with a reference on one path hold the same LockEntry. */
  lemma SameEntry(s: Locks, t: Tid, u: Tid, k: Key)
    requires Sound(s) && Hold(t, k) in s.refs && Hold(u, k) in s.refs
    ensures s.refs[Hold(t, k)] == s.refs[Hold(u, k)] == s.table[k]
  {
  }

  /** Reader-writer exclusion per path. */
  ghost predicate Exclusive(s: Locks) {
    forall t, u, k :: Hold(t, k) in s.writing ==>
      (Hold(u, k) in s.writing ==> t == u) && Hold(u, k) !in s.reading
  }

  lemma Exclusion(s: Locks)
    requires Sound(s)
    ensures Exclusive(s)
  {
    forall t, u, k | Hold(t, k) in s.writing
      ensures (Hold(u, k) in s.writing ==> t == u) && Hold(u, k) !in s.reading
    {
      if Hold(u, k) in s.writing || Hold(u, k) in s.reading {
        SameEntry(s, t, u, k);
      }
    }
  }

  // ----- every step keeps it

  lemma AcquireBalanced(s: Locks, h: Hold, newId: Id)
    requires Balanced(s) && CanAcquire(s, h, newId)
    ensures Balanced(Acquire(s, h, newId))
  {
    assert h == Hold(h.t, h.k);
  }

  lemma AcquireCounted(s: Locks, h: Hold, newId: Id)
    requires Counted(s) && Distinct(s) && h.t !in Outstanding(s, h.k) && CanAcquire(s, h, newId)
    requires Bounded(Acquire(s, h, newId))
    ensures Counted(Acquire(s, h, newId))
  {
    var s' := Acquire(s, h, newId);
    assert |Outstanding(s', h.k)| == |Outstanding(s, h.k)| + 1 < COUNT_LIMIT;
  }

  lemma AcquirePointed(s: Locks, h: Hold, newId: Id)
    requires Balanced(s) && Counted(s) && Pointed(s) && CanAcquire(s, h, newId)
    ensures Pointed(Acquire(s, h, newId))
  {
  }

  lemma AcquireOwned(s: Locks, h: Hold, newId: Id)
    requires Counted(s) && Pointed(s) && Owned(s) && CanAcquire(s, h, newId)
    ensures Owned(Acquire(s, h, newId))
  {
  }

  lemma AcquireInv(s: Locks, h: Hold, newId: Id)
    requires Sound(s) && CanAcquire(s, h, newId) && Bounded(Acquire(s, h, newId))
    ensures Sound(Acquire(s, h, newId))
  {
    AcquireBalanced(s, h, newId);
    AcquireCounted(s, h, newId);
    AcquirePointed(s, h, newId);
    AcquireOwned(s, h, newId);
  }

  lemma ReleaseBalanced(s: Locks, h: Hold)
    requires Balanced(s) && Pointed(s) && CanRelease(s, h)
    ensures Balanced(Release(s, h))
  {
    assert h == Hold(h.t, h.k);
  }

  lemma ReleaseCounted(s: Locks, h: Hold)
    requires Counted(s) && Distinct(s) && h.t in Outstanding(s, h.k) && CanRelease(s, h) && Bounded(s)
    ensures Counted(Release(s, h))
  {
    var s' := Release(s, h);
    assert |Outstanding(s', h.k)| == |Outstanding(s, h.k)| - 1;
    assert |Outstanding(s, h.k)| < COUNT_LIMIT;
  }

  lemma ReleasePointed(s: Locks, h: Hold)
    requires Balanced(s) && Counted(s) && Pointed(s) && CanRelease(s, h) && Bounded(s)
    ensures Pointed(Release(s, h))
  {
    assert h == Hold(h.t, h.k);
    assert |Outstanding(s, h.k)| < COUNT_LIMIT;
    forall g | g in s.refs && g != h && g.k == h.k
      ensures s.entries[s.table[h.k]].count > 1
    {
      assert g == Hold(g.t, h.k);
      assert |Outstanding(s, h.k) - {h.t}| == |Outstanding(s, h.k)| - 1;
      assert g.t in Outstanding(s, h.k) - {h.t};
    }
  }

  lemma ReleaseOwned(s: Locks, h: Hold)
    requires Sound(s) && CanRelease(s, h)
    ensures Owned(Release(s, h))
  {
  }

  lemma ReleaseInv(s: Locks, h: Hold)
    requires Sound(s) && CanRelease(s, h) && Bounded(s)
    ensures Sound(Release(s, h))
  {
    ReleaseBalanced(s, h);
    ReleaseCounted(s, h);
    ReleasePointed(s, h);
    ReleaseOwned(s, h);
  }

  lemma LeakInv(s: Locks, h: Hold)
    requires Sound(s) && CanRelease(s, h)
    ensures Sound(Leak(s, h))
  {
  }

  lemma LockWriteInv(s: Locks, h: Hold)
    requires Sound(s) && CanWrite(s, h)
    ensures Sound(LockWrite(s, h))
  {
  }

  lemma LockReadInv(s: Locks, h: Hold)
    requires Sound(s) && CanRead(s, h)
    ensures Sound(LockRead(s, h))
  {
  }

  lemma UnlockOwned(s: Locks, h: Hold)
    requires Pointed(s) && Owned(s) && Exclusive(s) && CanUnlock(s, h)
    ensures Owned(Unlock(s, h))
  {
  }

  lemma UnlockInv(s: Locks, h: Hold)
    requires Sound(s) && CanUnlock(s, h)
    ensures Sound(Unlock(s, h))
  {
    Exclusion(s);
    UnlockOwned(s, h);
  }
}
