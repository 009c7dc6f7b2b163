/** FileLockManager: entries created on demand, counted, erased at zero. */
module LockManager {
  import opened Basics
  import opened FileLocks

  // ----- the counts alone

  /** Effect of acquire_lock_ref on the map from paths to reference counts. */
  function Acquired<K>(counts: map<K, nat>, k: K): map<K, nat> {
    counts[k := ((if k in counts then counts[k] else 0) + 1) % COUNT_LIMIT]
  }

  /** Effect of release_lock_ref. */
  function Released<K>(counts: map<K, nat>, k: K): map<K, nat> {
    if k !in counts then counts
    else
      var n := (counts[k] + COUNT_LIMIT - 1) % COUNT_LIMIT;
      if n == 0 then counts - {k} else counts[k := n]
  }

  /** Below the limit, a release undoes an acquire. */
  lemma ReleaseUndoesAcquire<K>(counts: map<K, nat>, k: K)
    requires k in counts ==> 0 < counts[k] < COUNT_LIMIT
    ensures Released(Acquired(counts, k), k) == counts
  {
  }

  /** The concurrent lock table moves its counts exactly this way. */
  function CountsOf(s: Locks): map<Key, nat> {
    map k | k in s.table && s.table[k] in s.entries :: s.entries[s.table[k]].count
  }

  /** Every path in the table has an entry, and one of its own: part of what `Sound` says. */
  ghost predicate OwnEntries(s: Locks) {
    && (forall k :: k in s.table ==> s.table[k] in s.entries)
    && (forall j, k :: j in s.table && k in s.table && s.table[j] == s.table[k] ==> j == k)
  }

  lemma AcquireCountAt(s: Locks, h: Hold, newId: Id, k: Key)
    requires OwnEntries(s) && CanAcquire(s, h, newId)
    ensures k in CountsOf(Acquire(s, h, newId)) <==> k in Acquired(CountsOf(s), h.k)
    ensures k in CountsOf(Acquire(s, h, newId)) ==> CountsOf(Acquire(s, h, newId))[k] == Acquired(CountsOf(s), h.k)[k]
  {
    if h.k in s.table && k != h.k {
      assert k in s.table ==> s.table[k] != s.table[h.k];
    }
  }

  lemma MapsAgree<K, V>(a: map<K, V>, b: map<K, V>)
    requires forall k :: (k in a <==> k in b) && (k in a ==> a[k] == b[k])
    ensures a == b
  {
  }

  lemma AcquireCounts(s: Locks, h: Hold, newId: Id)
    requires OwnEntries(s) && CanAcquire(s, h, newId)
    ensures CountsOf(Acquire(s, h, newId)) == Acquired(CountsOf(s), h.k)
  {
    var counts := CountsOf(Acquire(s, h, newId));
    var expected := Acquired(CountsOf(s), h.k);
    forall k
      ensures k in counts <==> k in expected
      ensures k in counts ==> counts[k] == expected[k]
    {
      AcquireCountAt(s, h, newId, k);
    }
    MapsAgree(counts, expected);
  }

  lemma ReleaseCountAt(s: Locks, h: Hold, k: Key)
    requires OwnEntries(s) && CanRelease(s, h)
    ensures k in CountsOf(Release(s, h)) <==> k in Released(CountsOf(s), h.k)
    ensures k in CountsOf(Release(s, h)) ==> CountsOf(Release(s, h))[k] == Released(CountsOf(s), h.k)[k]
  {
  }

  lemma ReleaseCounts(s: Locks, h: Hold)
    requires OwnEntries(s) && CanRelease(s, h)
    ensures CountsOf(Release(s, h)) == Released(CountsOf(s), h.k)
  {
    var counts := CountsOf(Release(s, h));
    var expected := Released(CountsOf(s), h.k);
    forall k
      ensures k in counts <==> k in expected
      ensures k in counts ==> counts[k] == expected[k]
    {
      ReleaseCountAt(s, h, k);
    }
    MapsAgree(counts, expected);
  }

  // ----- the class

  class LockEntry {
    var refCount: nat

    constructor ()
      ensures refCount == 0
    {
      refCount := 0;
    }
  }

  class FileLockManager {
    var locks: map<Bytes, LockEntry>

    /** Every path has an entry of its own. */
    ghost predicate Valid()
      reads this
    {
      forall j, k :: j in locks && k in locks && locks[j] == locks[k] ==> j == k
    }

    ghost function Counts(): map<Bytes, nat>
      reads this, locks.Values
    {
      map k | k in locks :: locks[k].refCount
    }

    constructor ()
      ensures Valid() && locks == map[]
    {
      locks := map[];
    }

    /** The caller gets the entry in the map: the one already there, or a new one. */
    method AcquireLockRef(pathKey: Bytes) returns (entry: LockEntry)
      requires Valid()
      modifies this, locks.Values
      ensures Valid()
      ensures pathKey in old(locks) ==> entry == old(locks)[pathKey] && locks == old(locks)
      ensures pathKey !in old(locks) ==> fresh(entry) && locks == old(locks)[pathKey := entry]
      ensures fresh(locks.Values - old(locks.Values))
      ensures Counts() == Acquired(old(Counts()), pathKey)
    {
      if pathKey !in locks {
        var e := new LockEntry();
        locks := locks[pathKey := e];
      }
      entry := locks[pathKey];
      entry.refCount := (entry.refCount + 1) % COUNT_LIMIT;
    }

    /** Entries of other paths stay; this one is erased when its count reaches zero. */
    method ReleaseLockRef(pathKey: Bytes)
      requires Valid()
      modifies this, locks.Values
      ensures Valid()
      ensures locks == old(locks) || (pathKey in old(locks) && locks == old(locks) - {pathKey})
      ensures locks.Values <= old(locks.Values)
      ensures Counts() == Released(old(Counts()), pathKey)
    {
      if pathKey in locks {
        var entry := locks[pathKey];
        entry.refCount := (entry.refCount + COUNT_LIMIT - 1) % COUNT_LIMIT;
        if entry.refCount == 0 {
          locks := locks - {pathKey};
        }
      }
    }
  }
}
