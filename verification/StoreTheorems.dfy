/** What the invariant means for whole runs of the file store. */
module StoreTheorems {
  import opened Basics
  import opened AtomicStore
  import opened FileLocks
  import opened StoreMachine
  import opened StoreInvariant
  import opened StoreSteps
  import opened StoreLocking
  import opened StorePreserved

  /** A state some run from `disk` reaches, references staying below 2^32 throughout. */
  ghost predicate Reaches(disk: map<Key, Bytes>, choices: seq<Choice>, s: State) {
    Run(Init(disk), choices) == Some(s) && RunBounded(Init(disk), choices)
  }

  lemma ReachesInv(disk: map<Key, Bytes>, choices: seq<Choice>, s: State)
    requires Reaches(disk, choices, s)
    ensures Inv(s, Store(disk, map[]))
  {
    RunInv(disk, choices);
  }

  // ----- exclusion

  /** Two operations are inside the critical section of one path only if both only read,
      and they came in through the same LockEntry. */
  lemma PathExclusion(disk: map<Key, Bytes>, choices: seq<Choice>, s: State, t: Tid, u: Tid, k: Key)
    requires Reaches(disk, choices, s)
    requires t in s.th && u in s.th && t != u
    requires k in HeldKeys(s.th[t]) && k in HeldKeys(s.th[u])
    ensures s.th[t].op.Stream? && s.th[u].op.Stream?
    ensures Hold(t, k) in s.locks.refs && Hold(u, k) in s.locks.refs
    ensures s.locks.refs[Hold(t, k)] == s.locks.refs[Hold(u, k)]
  {
    ReachesInv(disk, choices, s);
    TracksExclude(s, t, u, k);
  }

  lemma TracksExclude(s: State, t: Tid, u: Tid, k: Key)
    requires Sound(s.locks) && Tracks(s) && t in s.th && u in s.th && t != u
    requires k in HeldKeys(s.th[t]) && k in HeldKeys(s.th[u])
    ensures s.th[t].op.Stream? && s.th[u].op.Stream?
    ensures Hold(t, k) in s.locks.refs && Hold(u, k) in s.locks.refs
    ensures s.locks.refs[Hold(t, k)] == s.locks.refs[Hold(u, k)]
  {
    Exclusion(s.locks);
    assert Hold(t, k) in s.locks.writing || Hold(t, k) in s.locks.reading;
    assert Hold(u, k) in s.locks.writing || Hold(u, k) in s.locks.reading;
  }

  // ----- reference accounting

  /** The operations with a live reference on `k`, and those that leaked one. */
  ghost function LiveRefs(s: State, k: Key): set<Tid> {
    set t | t in s.th && k in RefKeys(s.th[t])
  }

  ghost function LeakedRefs(s: State, k: Key): set<Tid> {
    set t | t in s.th && k in LeakedKeys(s.th[t])
  }

  /** ref_count is exactly the live plus the leaked references. */
  lemma ExactCount(disk: map<Key, Bytes>, choices: seq<Choice>, s: State, k: Key)
    requires Reaches(disk, choices, s)
    ensures k in s.locks.table <==> |LiveRefs(s, k)| + |LeakedRefs(s, k)| > 0
    ensures k in s.locks.table ==> s.locks.table[k] in s.locks.entries
    ensures k in s.locks.table ==>
      s.locks.entries[s.locks.table[k]].count == |LiveRefs(s, k)| + |LeakedRefs(s, k)|
  {
    ReachesInv(disk, choices, s);
    TracksCount(s, k);
  }

  lemma TracksCount(s: State, k: Key)
    requires Sound(s.locks) && Tracks(s)
    ensures k in s.locks.table <==> |LiveRefs(s, k)| + |LeakedRefs(s, k)| > 0
    ensures k in s.locks.table ==> s.locks.table[k] in s.locks.entries
    ensures k in s.locks.table ==>
      s.locks.entries[s.locks.table[k]].count == |LiveRefs(s, k)| + |LeakedRefs(s, k)|
  {
    var live, leaked := LiveRefs(s, k), LeakedRefs(s, k);
    forall t ensures t in Outstanding(s.locks, k) <==> t in live + leaked {
      assert Hold(t, k) in s.locks.refs <==> t in live;
      assert Hold(t, k) in s.locks.leaked <==> t in leaked;
    }
    assert Outstanding(s.locks, k) == live + leaked;
    assert live !! leaked;
    assert |live + leaked| == |live| + |leaked|;
    assert live + leaked == {} <==> |live + leaked| == 0;
  }

  ghost predicate AtRest(s: State) {
    forall t :: t in s.th ==> s.th[t].pc.Done?
  }

  /** When nothing runs, the lock map holds exactly the paths of the operations that left
      without releasing: completed downloads, broken uploads and exceptions. */
  lemma LockMapAtRest(disk: map<Key, Bytes>, choices: seq<Choice>, s: State, k: Key)
    requires Reaches(disk, choices, s) && AtRest(s)
    ensures k in s.locks.table <==>
      exists t :: t in s.th && k in s.th[t].op.Keys()
                  && (s.th[t].pc.out.Sent? || s.th[t].pc.out.SaveFailed? || s.th[t].pc.out.Threw?)
  {
    ExactCount(disk, choices, s, k);
    assert LiveRefs(s, k) == {};
    if k in s.locks.table {
      var t :| t in LeakedRefs(s, k);
    }
    if t :| t in s.th && k in s.th[t].op.Keys()
            && (s.th[t].pc.out.Sent? || s.th[t].pc.out.SaveFailed? || s.th[t].pc.out.Threw?) {
      assert t in LeakedRefs(s, k);
    }
  }

  // ----- disk and index

  /** For every path nobody is writing, the index entry is the exact size of the file, and
      an entry without a file was left by a failed overwrite and not healed since. */
  lemma IndexAgrees(disk: map<Key, Bytes>, choices: seq<Choice>, s: State, k: Key)
    requires Reaches(disk, choices, s) && Unheld(s, k)
    ensures Replay(Store(disk, map[]), s.hist).Some?
    ensures k in s.disk ==> k in s.index && s.index[k] == |s.disk[k]|
    ensures k in s.index && k !in s.disk <==> LeftStale(Store(disk, map[]), s.hist, k)
    ensures s.spec.Content(k) == if k in s.disk then Some(s.disk[k]) else None
  {
    ReachesInv(disk, choices, s);
    StaleExactly(Store(disk, map[]), s.hist, k);
    assert Clean(s.spec, k, CellAt(s, k));
  }

  lemma RestingUnheld(s: State, k: Key)
    requires Tracks(s) && AtRest(s)
    ensures Unheld(s, k)
  {
  }

  lemma RestingCell(s: State, start: Store, k: Key)
    requires Inv(s, start) && AtRest(s)
    ensures Clean(s.spec, k, CellAt(s, k))
  {
    RestingUnheld(s, k);
  }

  /** With nobody running, the disk is the atomic store and the index its sizes. */
  lemma RestingDisk(s: State, start: Store)
    requires Inv(s, start) && AtRest(s)
    ensures s.disk == s.spec.files
    ensures forall k :: CellAt(s, k).size == s.spec.Indexed(k)
  {
    var disk, files := s.disk, s.spec.files;
    forall k
      ensures k in disk <==> k in files
      ensures k in disk && k in files ==> disk[k] == files[k]
      ensures CellAt(s, k).size == s.spec.Indexed(k)
    {
      RestingCell(s, start, k);
    }
  }

  // ----- linearizability

  /**
    Every interleaving refines the atomic store: the history is a legal sequential run
    whose result is what the disk holds wherever nobody writes; it contains each finished
    operation exactly once, with the answer it returned, at a point between its start and
    its return; and it contains nothing else.
  */
  lemma Linearizable(disk: map<Key, Bytes>, choices: seq<Choice>, s: State)
    requires Reaches(disk, choices, s)
    ensures Replay(Store(disk, map[]), s.hist).Some?
    ensures AtRest(s) ==> s.disk == Replay(Store(disk, map[]), s.hist).value.files
    ensures forall t :: t in s.th && s.th[t].pc.Done? ==>
      && s.th[t].at.Some? && s.th[t].born <= s.th[t].at.value < |s.hist|
      && s.hist[s.th[t].at.value] == Event(t, s.th[t].op, s.th[t].pc.out)
    ensures forall i, j :: 0 <= i < |s.hist| && 0 <= j < |s.hist| && s.hist[i].t == s.hist[j].t ==>
      i == j
    ensures forall i :: 0 <= i < |s.hist| ==>
      s.hist[i].t in s.th && Decided(s.th[s.hist[i].t].pc) == Some(s.hist[i].out)
  {
    ReachesInv(disk, choices, s);
    if AtRest(s) {
      RestingDisk(s, Store(disk, map[]));
    }
    forall i | 0 <= i < |s.hist|
      ensures s.hist[i].t in s.th && s.th[s.hist[i].t].at == Some(i)
      ensures Decided(s.th[s.hist[i].t].pc) == Some(s.hist[i].out)
    {
      assert Timed(s.hist, s.hist[i].t, s.th[s.hist[i].t]);
    }
  }

  /** The step by which an operation takes effect is taken inside its critical section: it holds
      the mutex of each of its paths, and the step adds this operation's event and no other. */
  lemma EffectInside(disk: map<Key, Bytes>, choices: seq<Choice>, s: State, t: Tid, a: Action)
    requires Reaches(disk, choices, s) && Step(s, t, a).Some? && Step(s, t, a).value.hist != s.hist
    ensures t in s.th && HeldKeys(s.th[t]) == s.th[t].op.Keys()
    ensures forall k :: k in s.th[t].op.Keys() ==>
      Hold(t, k) in if s.th[t].op.Stream? then s.locks.reading else s.locks.writing
    ensures exists out :: Step(s, t, a).value.hist == s.hist + [Event(t, s.th[t].op, out)]
  {
    ReachesInv(disk, choices, s);
    var start := Store(disk, map[]);
    LockStepQuiet(s, t, a);
    LocalFromInv(s, start, t);
    DataStepOk(s, t, a);
    EffectHolds(s, t, a);
    forall k | k in HeldKeys(s.th[t])
      ensures Hold(t, k) in if s.th[t].op.Stream? then s.locks.reading else s.locks.writing
    {
      HeldHow(s, start, t, k);
    }
  }

  lemma LockStepQuiet(s: State, t: Tid, a: Action)
    requires Step(s, t, a).Some? && Step(s, t, a).value.hist != s.hist
    ensures t in s.th && !a.Spawn? && Step(s, t, a) == DataStep(s, t, a)
  {
  }

  lemma HeldHow(s: State, start: Store, t: Tid, k: Key)
    requires Inv(s, start) && t in s.th && k in HeldKeys(s.th[t])
    ensures Hold(t, k) in if s.th[t].op.Stream? then s.locks.reading else s.locks.writing
  {
  }

  lemma EffectHolds(s: State, t: Tid, a: Action)
    requires t in s.th && Shaped(s.th[t]) && DataStep(s, t, a).Some? && DataStep(s, t, a).value.hist != s.hist
    ensures HeldKeys(s.th[t]) == s.th[t].op.Keys()
  {
  }

  /** Steps only add to the history; a finished operation is never touched again; an
      operation that appears starts after everything already in the history. */
  ghost predicate Later(s: State, s': State) {
    && s.hist <= s'.hist
    && (forall t :: t in s.th ==> t in s'.th && s'.th[t].op == s.th[t].op && s'.th[t].born == s.th[t].born)
    && (forall t :: t in s.th && s.th[t].at.Some? ==> s'.th[t].at == s.th[t].at)
    && (forall t :: t in s'.th && t !in s.th ==> |s.hist| <= s'.th[t].born)
  }

  lemma DataLater(s: State, s': State, t: Tid)
    requires DataOk(s, s', t) && Timed(s.hist, t, s.th[t])
    ensures Later(s, s')
  {
  }

  lemma StepLater(s: State, start: Store, t: Tid, a: Action)
    requires Inv(s, start) && Step(s, t, a).Some?
    ensures Later(s, Step(s, t, a).value)
  {
    if !a.Spawn? && LockStep(s, t, a).None? {
      LocalFromInv(s, start, t);
      DataStepOk(s, t, a);
      DataLater(s, Step(s, t, a).value, t);
    }
  }

  lemma LaterTransitive(s: State, m: State, s': State)
    requires Later(s, m) && Later(m, s')
    ensures Later(s, s')
  {
  }

  lemma {:induction false} RunLater(disk: map<Key, Bytes>, choices: seq<Choice>, s: State, i: nat)
    requires Reaches(disk, choices, s) && i <= |choices|
    ensures Run(Init(disk), choices[..i]).Some?
    ensures Later(Run(Init(disk), choices[..i]).value, s)
    decreases |choices|
  {
    if i == |choices| {
      assert choices[..i] == choices;
    } else {
      var n := |choices| - 1;
      var before := choices[..n];
      var m := Run(Init(disk), before).value;
      assert before[..i] == choices[..i];
      ReachesBefore(disk, choices, n);
      RunLater(disk, before, m, i);
      ReachesInv(disk, before, m);
      StepLater(m, Store(disk, map[]), choices[n].0, choices[n].1);
      LaterTransitive(Run(Init(disk), choices[..i]).value, m, s);
    }
  }

  lemma ReachesBefore(disk: map<Key, Bytes>, choices: seq<Choice>, i: nat)
    requires RunBounded(Init(disk), choices) && i <= |choices|
    requires Run(Init(disk), choices[..i]).Some?
    ensures Reaches(disk, choices[..i], Run(Init(disk), choices[..i]).value)
  {
    assert forall j :: 0 <= j <= i ==> choices[..i][..j] == choices[..j];
  }

  /** Real time is respected: an operation that returned before another began comes first. */
  lemma RealTimeOrder(disk: map<Key, Bytes>, choices: seq<Choice>, s: State, i: nat, t: Tid, u: Tid)
    requires Reaches(disk, choices, s) && i <= |choices| && Run(Init(disk), choices[..i]).Some?
    requires t in Run(Init(disk), choices[..i]).value.th
    requires Run(Init(disk), choices[..i]).value.th[t].pc.Done?
    requires u !in Run(Init(disk), choices[..i]).value.th
    requires u in s.th && s.th[u].at.Some?
    ensures t in s.th && s.th[t].at.Some? && s.th[t].at.value < s.th[u].at.value
  {
    var m := Run(Init(disk), choices[..i]).value;
    ReachesBefore(disk, choices, i);
    RunLater(disk, choices, s, i);
    ReachesInv(disk, choices[..i], m);
    ReachesInv(disk, choices, s);
    Ordered(m, s, Store(disk, map[]), t, u);
  }

  lemma Ordered(m: State, s: State, start: Store, t: Tid, u: Tid)
    requires History(m, start) && History(s, start) && Later(m, s)
    requires t in m.th && m.th[t].pc.Done? && u !in m.th && u in s.th && s.th[u].at.Some?
    ensures t in s.th && s.th[t].at.Some? && s.th[t].at.value < s.th[u].at.value
  {
    assert Timed(m.hist, t, m.th[t]);
    assert Timed(s.hist, u, s.th[u]);
  }

  /** What the atomic store held when a decided operation took effect. */
  lemma AtDone(s: State, start: Store, t: Tid)
    requires Inv(s, start) && t in s.th && s.th[t].at.Some? && s.th[t].at.value < |s.hist|
    requires Decided(s.th[t].pc).Some?
    ensures var n := s.th[t].at.value;
            && Replay(start, s.hist[..n]).Some?
            && Allowed(Replay(start, s.hist[..n]).value, s.th[t].op, Decided(s.th[t].pc).value)
  {
    var n := s.th[t].at.value;
    assert Timed(s.hist, t, s.th[t]);
    ReplayPrefix(start, s.hist, n + 1);
    assert s.hist[..n + 1][..n] == s.hist[..n];
  }

  /** A file on disk that nobody is writing stays as it is, whatever runs, until an upload of it, a
      deletion of it or a rename of it to another name takes effect. */
  lemma FileSurvives(disk: map<Key, Bytes>, choices: seq<Choice>, s: State, i: nat, k: Key)
    requires Reaches(disk, choices, s) && i <= |choices| && Run(Init(disk), choices[..i]).Some?
    requires var m := Run(Init(disk), choices[..i]).value;
             && Unheld(m, k) && Unheld(s, k) && k in m.disk
             && forall j :: |m.hist| <= j < |s.hist| ==>
                  && !(s.hist[j].op.Save? && s.hist[j].op.key == k
                       && (s.hist[j].out.Saved? || s.hist[j].out.SaveFailed?))
                  && !(s.hist[j].op.Delete? && s.hist[j].op.key == k && s.hist[j].out.Deleted?)
                  && !(s.hist[j].op.Rename? && s.hist[j].op.src == k && s.hist[j].out.Renamed?)
    ensures k in s.disk && s.disk[k] == Run(Init(disk), choices[..i]).value.disk[k]
  {
    var m, start := Run(Init(disk), choices[..i]).value, Store(disk, map[]);
    ReachesBefore(disk, choices, i);
    RunLater(disk, choices, s, i);
    ReachesInv(disk, choices[..i], m);
    ReachesInv(disk, choices, s);
    assert s.hist[..|m.hist|] == m.hist;
    assert Clean(m.spec, k, CellAt(m, k)) && Clean(s.spec, k, CellAt(s, k));
    Survives(start, s.hist, |m.hist|, k);
  }

  // ----- no torn reads

  /** `data` is the whole payload of one completed upload, or of one startup file. */
  ghost predicate WholePayload(disk: map<Key, Bytes>, hist: seq<Event>, o: Origin, data: Bytes) {
    match o
    case Startup(k) => k in disk && data == disk[k]
    case Uploaded(i) => i < |hist| && hist[i].out == Saved(data)
  }

  /** A completed download sent one whole payload, the one that renames had brought to its
      path when it took effect; a broken one sent a prefix of such a payload. */
  lemma NoTornRead(disk: map<Key, Bytes>, choices: seq<Choice>, s: State, t: Tid)
    requires Reaches(disk, choices, s) && t in s.th && s.th[t].pc.Done?
    requires s.th[t].pc.out.Sent? || s.th[t].pc.out.Cut?
    ensures s.th[t].op.Stream? && s.th[t].at.Some? && s.th[t].at.value <= |s.hist|
    ensures var hist := s.hist[..s.th[t].at.value];
            var o := OriginOf(hist, s.th[t].op.key);
            match s.th[t].pc.out
            case Sent(data) => WholePayload(disk, hist, o, data)
            case Cut(prefix) => exists data :: WholePayload(disk, hist, o, data) && prefix <= data
            case _ => false
  {
    ReachesInv(disk, choices, s);
    var start := Store(disk, map[]);
    assert Timed(s.hist, t, s.th[t]);
    var n := s.th[t].at.value;
    AtDone(s, start, t);
    Provenance(start, s.hist[..n], s.th[t].op.key);
    var data := Replay(start, s.hist[..n]).value.files[s.th[t].op.key];
    assert WholePayload(disk, s.hist[..n], OriginOf(s.hist[..n], s.th[t].op.key), data);
  }

  /** A download in progress has sent a prefix of what is on disk, and nobody is writing it. */
  lemma ReadInProgress(disk: map<Key, Bytes>, choices: seq<Choice>, s: State, t: Tid)
    requires Reaches(disk, choices, s) && t in s.th && s.th[t].pc.Reading?
    ensures s.th[t].op.Stream? && Unheld(s, s.th[t].op.key)
    ensures s.th[t].op.key in s.disk && s.th[t].pc.sent <= s.disk[s.th[t].op.key]
  {
    ReachesInv(disk, choices, s);
    LocalFromInv(s, Store(disk, map[]), t);
    Exclusion(s.locks);
    assert Hold(t, s.th[t].op.key) in s.locks.reading;
    assert CellOk(s.th[t], s.spec, s.th[t].op.key, CellAt(s, s.th[t].op.key));
  }
}
