/**
  The sequential meaning of the file store: every file operation is one atomic
  step over a map from keys to contents.

  `stale` records the index entries that outlive their file: an upload that fails
  half way removes the file but leaves the index entry of the overwritten file.
*/
module AtomicStore {
  import opened Basics

  datatype Store = Store(files: map<Key, Bytes>, stale: map<Key, nat>) {
    ghost predicate Valid() {
      files.Keys !! stale.Keys
    }

    /** The size the metadata index holds for `k`, if it holds one. */
    function Indexed(k: Key): Option<nat> {
      if k in files then Some(|files[k]|)
      else if k in stale then Some(stale[k])
      else None
    }

    function Content(k: Key): Option<Bytes> {
      if k in files then Some(files[k]) else None
    }

    /** A user's names and sizes, as the index lists them. */
    function Listing(user: Bytes): (l: map<Bytes, nat>)
      ensures forall n :: Indexed(Key(user, n)) == (if n in l then Some(l[n]) else None)
    {
      map k | k in files.Keys + stale.Keys && k.user == user :: k.name := Indexed(k).value
    }
  }

  datatype Op =
    | Save(key: Key, size: nat)
    | Stream(key: Key)
    | Delete(key: Key)
    | Rename(src: Key, dst: Key)
  {
    function Keys(): set<Key> {
      if Rename? then {src, dst} else {key}
    }

    function First(): Key {
      if Rename? then src else key
    }

    function Last(): Key {
      if Rename? then dst else key
    }
  }

  /** How an operation ended. `Threw` is a filesystem exception before any effect. */
  datatype Outcome =
    | Saved(data: Bytes) | SaveFailed | Refused
    | Sent(data: Bytes) | Cut(prefix: Bytes) | NotFound
    | Deleted | Missing
    | Renamed | Clash
    | Threw
  {
    /** The boolean the C++ function returns. */
    predicate Success() {
      Saved? || Sent? || Deleted? || Renamed?
    }

    /** The exits that skip `release_lock_ref`. */
    predicate Leaks() {
      SaveFailed? || Sent? || Threw?
    }
  }

  predicate Possible(op: Op, out: Outcome) {
    match out
    case Saved(data) => op.Save? && |data| == op.size
    case SaveFailed => op.Save?
    case Refused => op.Save?
    case Sent(_) => op.Stream?
    case Cut(_) => op.Stream?
    case NotFound => op.Stream?
    case Deleted => op.Delete?
    case Missing => op.Delete?
    case Renamed => op.Rename? && op.src != op.dst
    case Clash => op.Rename?
    case Threw => true
  }

  /** Whether the atomic operation `op` may answer `out` in store `s`. */
  predicate Allowed(s: Store, op: Op, out: Outcome) {
    && Possible(op, out)
    && match out
       case Sent(data) => op.key in s.files && data == s.files[op.key]
       case Cut(prefix) => op.key in s.files && prefix <= s.files[op.key]
       case NotFound => op.key !in s.files
       case Deleted => op.key in s.files
       case Missing => op.key !in s.files
       case Renamed => op.src in s.files && op.dst !in s.files
       case Clash => op.src !in s.files || op.dst in s.files
       case _ => true
  }

  function Effect(s: Store, op: Op, out: Outcome): Store
    requires Allowed(s, op, out)
  {
    match out
    case Saved(data) => Store(s.files[op.key := data], s.stale - {op.key})
    case SaveFailed =>
      Store(s.files - {op.key},
            if op.key in s.files then s.stale[op.key := |s.files[op.key]|] else s.stale)
    case Deleted => Store(s.files - {op.key}, s.stale)
    case Renamed => Store((s.files - {op.src})[op.dst := s.files[op.src]], s.stale - {op.dst})
    case _ => s
  }

  /** One linearized operation: instance `t` performed `op` and it ended as `out`. */
  datatype Event = Event(t: nat, op: Op, out: Outcome)

  /** Runs the history from `s`; `None` when some event is not allowed where it stands. */
  function Replay(s: Store, hist: seq<Event>): Option<Store> {
    if hist == [] then Some(s)
    else
      var e := hist[|hist| - 1];
      match Replay(s, hist[..|hist| - 1])
      case None => None
      case Some(m) => if Allowed(m, e.op, e.out) then Some(Effect(m, e.op, e.out)) else None
  }

  lemma ReplaySnoc(s: Store, hist: seq<Event>, e: Event)
    requires Replay(s, hist).Some?
    requires Allowed(Replay(s, hist).value, e.op, e.out)
    ensures Replay(s, hist + [e]) == Some(Effect(Replay(s, hist).value, e.op, e.out))
  {
    assert (hist + [e])[..|hist + [e]| - 1] == hist;
  }

  /** A legal history is legal up to every point. */
  lemma {:induction false} ReplayPrefix(s: Store, hist: seq<Event>, i: nat)
    requires i <= |hist| && Replay(s, hist).Some?
    ensures Replay(s, hist[..i]).Some?
    decreases |hist|
  {
    if i == |hist| {
      assert hist[..i] == hist;
    } else {
      ReplayPrefix(s, hist[..|hist| - 1], i);
      assert hist[..|hist| - 1][..i] == hist[..i];
    }
  }

  /** The size that stands for "absent": the largest uint64_t. */
  const ABSENT: nat := 0xFFFF_FFFF_FFFF_FFFF

  /** Every size stays below it. */
  ghost predicate Sized(s: Store) {
    forall k :: s.Indexed(k).Some? ==> s.Indexed(k).value < ABSENT
  }

  lemma EffectValid(s: Store, op: Op, out: Outcome)
    requires s.Valid() && Allowed(s, op, out)
    ensures Effect(s, op, out).Valid()
  {
  }

  lemma SizedAfter(s: Store, op: Op, out: Outcome)
    requires s.Valid() && Sized(s) && Allowed(s, op, out) && (out.Saved? ==> op.size < ABSENT)
    ensures Effect(s, op, out).Valid() && Sized(Effect(s, op, out))
  {
    EffectValid(s, op, out);
    forall k | Effect(s, op, out).Indexed(k).Some?
      ensures Effect(s, op, out).Indexed(k).value < ABSENT
    {
      if k !in op.Keys() {
        EffectFrame(s, op, out, k);
      } else if out.Renamed? {
        assert s.Indexed(op.src).Some?;
      } else {
        assert s.Indexed(k).Some? || out.Saved?;
      }
    }
  }

  /** Only the keys an operation names can change. */
  lemma EffectFrame(s: Store, op: Op, out: Outcome, k: Key)
    requires Allowed(s, op, out) && k !in op.Keys()
    ensures Effect(s, op, out).Content(k) == s.Content(k)
    ensures Effect(s, op, out).Indexed(k) == s.Indexed(k)
  {
  }

  /** Every answer of a legal history is true of the files before and after it, and only the files
      the answer speaks of have changed. */
  lemma AnswersTrue(s: Store, hist: seq<Event>, i: nat)
    requires Replay(s, hist).Some? && i < |hist|
    ensures Replay(s, hist[..i]).Some? && Replay(s, hist[..i + 1]).Some?
    ensures var before, after := Replay(s, hist[..i]).value, Replay(s, hist[..i + 1]).value;
            var op := hist[i].op;
            match hist[i].out
            case Saved(data) => op.Save? && |data| == op.size && after.Content(op.key) == Some(data)
            case SaveFailed => op.Save? && after.Content(op.key) == None
            case Refused => op.Save?
            case Sent(data) => op.Stream? && before.Content(op.key) == Some(data)
            case Cut(prefix) => op.Stream? && op.key in before.files && prefix <= before.files[op.key]
            case NotFound => op.Stream? && before.Content(op.key) == None
            case Deleted => op.Delete? && before.Content(op.key).Some? && after.Content(op.key) == None
            case Missing => op.Delete? && before.Content(op.key) == None
            case Renamed =>
              && op.Rename? && before.Content(op.src).Some? && before.Content(op.dst) == None
              && after.Content(op.src) == None && after.Content(op.dst) == before.Content(op.src)
            case Clash => op.Rename? && (before.Content(op.src) == None || before.Content(op.dst).Some?)
            case Threw => true
    ensures var before, after := Replay(s, hist[..i]).value, Replay(s, hist[..i + 1]).value;
            var op, out := hist[i].op, hist[i].out;
            forall k :: after.Content(k) == before.Content(k)
              || ((out.Saved? || out.SaveFailed? || out.Deleted?) && k == op.key)
              || (out.Renamed? && (k == op.src || k == op.dst))
  {
    ReplayPrefix(s, hist, i + 1);
    ReplayPrefix(s, hist, i);
    assert hist[..i + 1][..i] == hist[..i];
  }

  /** A file that no upload replaces or breaks, no deletion removes and no rename moves away is there
      with its content, whatever else happens. In particular no rename overwrites it. */
  lemma {:induction false} Survives(s: Store, hist: seq<Event>, i: nat, k: Key)
    requires Replay(s, hist).Some? && i <= |hist|
    requires Replay(s, hist[..i]).Some? && Replay(s, hist[..i]).value.Content(k).Some?
    requires forall j :: i <= j < |hist| ==>
      && !(hist[j].op.Save? && hist[j].op.key == k && (hist[j].out.Saved? || hist[j].out.SaveFailed?))
      && !(hist[j].op.Delete? && hist[j].op.key == k && hist[j].out.Deleted?)
      && !(hist[j].op.Rename? && hist[j].op.src == k && hist[j].out.Renamed?)
    ensures Replay(s, hist).value.Content(k) == Replay(s, hist[..i]).value.Content(k)
    decreases |hist|
  {
    var n := |hist| - 1;
    assert hist[..|hist|] == hist;
    if i < |hist| {
      assert hist[..n][..i] == hist[..i];
      Survives(s, hist[..n], i, k);
      AnswersTrue(s, hist, n);
    }
  }

  /** At most one atomic operation happened. */
  ghost predicate OneStep(s: Store, s': Store) {
    s' == s || exists op, out :: Allowed(s, op, out) && s' == Effect(s, op, out)
  }

  /** A sequence of atomic operations leads from `s` to `s'`. */
  ghost predicate Evolves(s: Store, s': Store) {
    exists hist :: Replay(s, hist) == Some(s')
  }

  lemma EvolvesNot(s: Store)
    ensures Evolves(s, s)
  {
    assert Replay(s, []) == Some(s);
  }

  lemma EvolvesMore(s: Store, m: Store, s': Store)
    requires Evolves(s, m) && OneStep(m, s')
    ensures Evolves(s, s')
  {
    if s' != m {
      var hist :| Replay(s, hist) == Some(m);
      var op, out :| Allowed(m, op, out) && s' == Effect(m, op, out);
      ReplaySnoc(s, hist, Event(0, op, out));
    }
  }

  // ----- where a file's bytes come from

  datatype Origin = Startup(key: Key) | Uploaded(event: nat)

  /** Follows the file now stored at `k` back through renames. */
  function OriginOf(hist: seq<Event>, k: Key): Origin {
    if hist == [] then Startup(k)
    else
      var n := |hist| - 1;
      var e := hist[n];
      if e.out.Saved? && e.op.Save? && e.op.key == k then Uploaded(n)
      else if e.out.Renamed? && e.op.Rename? && e.op.dst == k then OriginOf(hist[..n], e.op.src)
      else OriginOf(hist[..n], k)
  }

  /** A stored file is exactly one uploaded payload, or one startup file. */
  lemma {:induction false} Provenance(s: Store, hist: seq<Event>, k: Key)
    requires Replay(s, hist).Some? && k in Replay(s, hist).value.files
    ensures match OriginOf(hist, k)
            case Startup(k0) => k0 in s.files && Replay(s, hist).value.files[k] == s.files[k0]
            case Uploaded(i) =>
              i < |hist| && hist[i].out == Saved(Replay(s, hist).value.files[k])
    decreases |hist|
  {
    if hist != [] {
      var n := |hist| - 1;
      var e := hist[n];
      if e.out.Saved? && e.op.key == k {
      } else if e.out.Renamed? && e.op.dst == k {
        Provenance(s, hist[..n], e.op.src);
      } else {
        Provenance(s, hist[..n], k);
      }
    }
  }

  // ----- which index entries are stale

  /** Event `i` is an upload that destroyed the file it was overwriting. */
  ghost predicate Destroys(s: Store, hist: seq<Event>, i: nat, k: Key)
    requires i < |hist| && Replay(s, hist).Some?
  {
    ReplayPrefix(s, hist, i);
    && hist[i].out.SaveFailed? && hist[i].op.Save? && hist[i].op.key == k
    && k in Replay(s, hist[..i]).value.files
  }

  /** The event writes a fresh index entry for `k`. */
  predicate Heals(e: Event, k: Key) {
    || (e.out.Saved? && e.op.Save? && e.op.key == k)
    || (e.out.Renamed? && e.op.Rename? && e.op.dst == k)
  }

  ghost predicate LeftStale(s: Store, hist: seq<Event>, k: Key)
    requires Replay(s, hist).Some?
  {
    exists i: nat :: i < |hist| && Destroys(s, hist, i, k)
                  && forall j :: i < j < |hist| ==> !Heals(hist[j], k)
  }

  lemma DestroysEarlier(s: Store, hist: seq<Event>, n: nat, i: nat, k: Key)
    requires i < n <= |hist| && Replay(s, hist).Some? && Replay(s, hist[..n]).Some?
    ensures Destroys(s, hist[..n], i, k) <==> Destroys(s, hist, i, k)
  {
    assert hist[..n][..i] == hist[..i];
  }

  /** The last event leaves a key stale, or heals it, or lets it be. */
  lemma LeftStaleLast(s: Store, hist: seq<Event>, k: Key)
    requires hist != [] && Replay(s, hist).Some? && Replay(s, hist[..|hist| - 1]).Some?
    ensures var n := |hist| - 1;
            LeftStale(s, hist, k) <==>
            Destroys(s, hist, n, k) || (LeftStale(s, hist[..n], k) && !Heals(hist[n], k))
  {
    var n := |hist| - 1;
    var h := hist[..n];
    if LeftStale(s, hist, k) && !Destroys(s, hist, n, k) {
      var i: nat :| i < |hist| && Destroys(s, hist, i, k)
                 && forall j :: i < j < |hist| ==> !Heals(hist[j], k);
      DestroysEarlier(s, hist, n, i, k);
      assert forall j :: i < j < n ==> h[j] == hist[j];
    }
    if LeftStale(s, h, k) && !Heals(hist[n], k) {
      var i: nat :| i < n && Destroys(s, h, i, k) && forall j :: i < j < n ==> !Heals(h[j], k);
      DestroysEarlier(s, hist, n, i, k);
      assert forall j :: i < j < n ==> hist[j] == h[j];
    }
  }

  /** The stale keys are exactly those left by a failed overwrite and not since
      uploaded again or renamed onto. */
  lemma {:induction false} StaleExactly(s: Store, hist: seq<Event>, k: Key)
    requires Replay(s, hist).Some? && s.stale == map[]
    ensures k in Replay(s, hist).value.stale <==> LeftStale(s, hist, k)
    decreases |hist|
  {
    if hist != [] {
      var n := |hist| - 1;
      StaleExactly(s, hist[..n], k);
      LeftStaleLast(s, hist, k);
    }
  }
}
