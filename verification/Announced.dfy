/** The size a download announces and the bytes it sends. */
module Announced {
  import opened Basics
  import opened AtomicStore
  import opened FileLocks
  import opened StoreMachine
  import opened StoreInvariant
  import opened StoreSteps
  import opened StorePreserved
  import opened StoreTheorems

  /** get_file_size looks into the index twice, without the file lock: whether there is an entry,
      as of `m`, and its size, as of `m'`. */
  function SizeRead(m: State, m': State, k: Key): Option<nat> {
    if k !in m.index then None
    else if k in m'.index then Some(m'.index[k])
    else Some(0)
  }

  /** A rename has moved a file onto `k` and not yet written its index entry. */
  ghost predicate Relinking(s: State, k: Key) {
    exists t :: t in s.th && s.th[t].op.Rename? && s.th[t].op.dst == k
             && (s.th[t].pc.Moved? || s.th[t].pc.Sized? || s.th[t].pc.Relink?)
  }

  /** But for that moment, a file of the atomic store is indexed with its size at all times. */
  lemma IndexExact(s: State, start: Store, k: Key)
    requires Inv(s, start) && !Relinking(s, k) && k in s.spec.files
    ensures k in s.index && s.index[k] == |s.spec.files[k]|
  {
    if t :| Hold(t, k) in s.locks.writing {
      assert t in s.th && CellOk(s.th[t], s.spec, k, CellAt(s, k));
      assert k in s.th[t].op.Keys();
    } else {
      assert Unheld(s, k);
    }
    assert CellAt(s, k).size == s.spec.Indexed(k);
  }

  /** At that moment the file itself is in place. */
  lemma RelinkedContent(s: State, start: Store, k: Key)
    requires Inv(s, start) && Relinking(s, k)
    ensures (if k in s.disk then Some(s.disk[k]) else None) == s.spec.Content(k)
  {
    var t :| t in s.th && s.th[t].op.Rename? && s.th[t].op.dst == k
          && (s.th[t].pc.Moved? || s.th[t].pc.Sized? || s.th[t].pc.Relink?);
    assert k in HeldKeys(s.th[t]);
    assert Hold(t, k) in s.locks.writing;
    assert CellOk(s.th[t], s.spec, k, CellAt(s, k));
  }

  /** The last event from `i` on that put a file at `k`. */
  function LastWrite(hist: seq<Event>, i: nat, k: Key): (r: Option<nat>)
    ensures r.Some? ==> i <= r.value < |hist| && Heals(hist[r.value], k)
  {
    if |hist| <= i then None
    else
      var n := |hist| - 1;
      if Heals(hist[n], k) then Some(n) else LastWrite(hist[..n], i, k)
  }

  /** What is at `k` in the end was put there by the last write, or was there before. */
  lemma {:induction false} Since(start: Store, hist: seq<Event>, i: nat, k: Key)
    requires Replay(start, hist).Some? && i <= |hist| && k in Replay(start, hist).value.files
    ensures var from := match LastWrite(hist, i, k)
                        case None => i
                        case Some(n) => n + 1;
            && Replay(start, hist[..from]).Some?
            && Replay(start, hist[..from]).value.Content(k) == Replay(start, hist).value.Content(k)
    decreases |hist|
  {
    var n := |hist| - 1;
    if |hist| == i || Heals(hist[n], k) {
      assert hist[..|hist|] == hist;
    } else {
      var h := hist[..n];
      StillThere(Replay(start, h).value, hist[n].op, hist[n].out, k);
      Since(start, h, i, k);
      assert h[..i] == hist[..i];
      if LastWrite(h, i, k).Some? {
        assert h[..LastWrite(h, i, k).value + 1] == hist[..LastWrite(h, i, k).value + 1];
      }
    }
  }

  /** An operation that does not put a file at `k` leaves the one that is there, or none. */
  lemma StillThere(s: Store, op: Op, out: Outcome, k: Key)
    requires Allowed(s, op, out) && k in Effect(s, op, out).files && !Heals(Event(0, op, out), k)
    ensures Effect(s, op, out).Content(k) == s.Content(k)
  {
  }

  /** The size of the file that event `n` put at `k`. */
  ghost function SizeLeft(start: Store, hist: seq<Event>, n: nat, k: Key): Option<nat> {
    if n >= |hist| then None
    else
      match Replay(start, hist[..n + 1])
      case None => None
      case Some(m) => if k in m.files then Some(|m.files[k]|) else None
  }

  /**
    handle_client announces the size get_file_size has read and streams afterwards. A completed
    download sends exactly the announced number of bytes if and only if
    - the last upload or rename onto the path that took effect in between left a file of that size; or
    - there was none, and a rename onto the path that was just then writing its index entry, if there
      was one, had moved a file of that size there.
  */
  lemma AnnouncedLength(disk: map<Key, Bytes>, choices: seq<Choice>, s: State, h: nat, i: nat, t: Tid)
    requires Reaches(disk, choices, s) && h <= i <= |choices|
    requires Run(Init(disk), choices[..h]).Some? && Run(Init(disk), choices[..i]).Some?
    requires t in s.th && s.th[t].op.Stream? && s.th[t].pc.Done? && s.th[t].pc.out.Sent?
    requires var m := Run(Init(disk), choices[..i]).value;
             && t !in m.th
             && SizeRead(Run(Init(disk), choices[..h]).value, m, s.th[t].op.key).Some?
    ensures s.th[t].at.Some? && s.th[t].at.value <= |s.hist|
    ensures var m := Run(Init(disk), choices[..i]).value;
            var k := s.th[t].op.key;
            var announced := SizeRead(Run(Init(disk), choices[..h]).value, m, k).value;
            var before := s.hist[..s.th[t].at.value];
            |s.th[t].pc.out.data| == announced <==>
            match LastWrite(before, |m.hist|, k)
            case None => Relinking(m, k) ==> k in m.disk && |m.disk[k]| == announced
            case Some(n) => SizeLeft(Store(disk, map[]), before, n, k) == Some(announced)
  {
    var m := Run(Init(disk), choices[..i]).value;
    ReachesBefore(disk, choices, i);
    RunLater(disk, choices, s, i);
    ReachesInv(disk, choices[..i], m);
    ReachesInv(disk, choices, s);
    var start, k := Store(disk, map[]), s.th[t].op.key;
    SentThere(s, start, t);
    BornLater(m, s, start, t);
    if Relinking(m, k) {
      RelinkedContent(m, start, k);
    } else if k in m.spec.files {
      IndexExact(m, start, k);
    }
    var before := s.hist[..s.th[t].at.value];
    assert before[..|m.hist|] == m.hist;
    match LastWrite(before, |m.hist|, k)
    case None => Unwritten(start, before, |m.hist|, k);
    case Some(n) => Written(start, before, |m.hist|, k, n);
  }

  /** A completed download sent the file that stood in the history at its moment. */
  lemma SentThere(s: State, start: Store, t: Tid)
    requires Inv(s, start) && t in s.th && s.th[t].op.Stream? && s.th[t].pc.Done? && s.th[t].pc.out.Sent?
    ensures s.th[t].at.Some? && s.th[t].at.value <= |s.hist|
    ensures var before := s.hist[..s.th[t].at.value];
            && Replay(start, before).Some?
            && Replay(start, before).value.Content(s.th[t].op.key) == Some(s.th[t].pc.out.data)
  {
    assert Timed(s.hist, t, s.th[t]);
    AtDone(s, start, t);
  }

  lemma BornLater(m: State, s: State, start: Store, t: Tid)
    requires History(m, start) && History(s, start) && Later(m, s) && t in s.th && t !in m.th
    requires s.th[t].at.Some? && s.th[t].at.value <= |s.hist|
    ensures m.hist <= s.hist[..s.th[t].at.value] && Replay(start, m.hist) == Some(m.spec)
  {
    assert Timed(s.hist, t, s.th[t]);
  }

  lemma Unwritten(start: Store, before: seq<Event>, i: nat, k: Key)
    requires i <= |before| && Replay(start, before).Some? && k in Replay(start, before).value.files
    requires LastWrite(before, i, k).None?
    ensures Replay(start, before[..i]).Some?
    ensures Replay(start, before[..i]).value.Content(k) == Replay(start, before).value.Content(k)
  {
    Since(start, before, i, k);
  }

  lemma Written(start: Store, before: seq<Event>, i: nat, k: Key, n: nat)
    requires i <= |before| && Replay(start, before).Some? && k in Replay(start, before).value.files
    requires LastWrite(before, i, k) == Some(n)
    ensures SizeLeft(start, before, n, k) == Some(|Replay(start, before).value.files[k]|)
  {
    Since(start, before, i, k);
  }
}
