/**
  The store with one more thing that can go wrong: fs::remove throws on the partial file of a
  broken upload. What still holds then, and what does not.
*/
module Cleanup {
  import opened Basics
  import opened AtomicStore
  import opened FileLocks
  import opened StoreMachine
  import opened StoreInvariant
  import opened StoreLocking
  import opened StorePreserved
  import opened StoreProgress
  import opened StoreTheorems
  import opened Witnesses

  datatype Turn = Usual(t: Tid, a: Action) | CleanupThrows(t: Tid)

  /** The partial file stays where it is; the scope is left as it is after a removal. */
  function ThrowInCleanup(s: State, t: Tid): Option<State> {
    if t in s.th && s.th[t].pc.Broken? then Some(Decide(s, t, SaveFailed, Bail(SaveFailed))) else None
  }

  function WideStep(s: State, u: Turn): Option<State> {
    match u
    case Usual(t, a) => Step(s, t, a)
    case CleanupThrows(t) => ThrowInCleanup(s, t)
  }

  function WideRun(s: State, turns: seq<Turn>): Option<State> {
    if turns == [] then Some(s)
    else
      var n := |turns| - 1;
      match WideRun(s, turns[..n])
      case None => None
      case Some(m) => WideStep(m, turns[n])
  }

  ghost predicate WideReaches(disk: map<Key, Bytes>, turns: seq<Turn>, s: State) {
    && WideRun(Init(disk), turns) == Some(s)
    && forall i :: 0 <= i <= |turns| && WideRun(Init(disk), turns[..i]).Some? ==>
         Bounded(WideRun(Init(disk), turns[..i]).value.locks)
  }

  // ----- runs in which no cleanup throws

  function Choices(turns: seq<Turn>): (choices: seq<Choice>)
    requires forall i :: 0 <= i < |turns| ==> turns[i].Usual?
    ensures |choices| == |turns|
  {
    seq(|turns|, i requires 0 <= i < |turns| => (turns[i].t, turns[i].a))
  }

  lemma {:induction false} OrdinaryRun(s: State, turns: seq<Turn>)
    requires forall i :: 0 <= i < |turns| ==> turns[i].Usual?
    ensures WideRun(s, turns) == Run(s, Choices(turns))
    decreases |turns|
  {
    if turns != [] {
      var n := |turns| - 1;
      OrdinaryRun(s, turns[..n]);
      assert Choices(turns)[..n] == Choices(turns[..n]);
    }
  }

  /** They are the runs of the store: every theorem about those is one about these. */
  lemma NoneThrew(disk: map<Key, Bytes>, turns: seq<Turn>, s: State)
    requires forall i :: 0 <= i < |turns| ==> turns[i].Usual?
    ensures WideReaches(disk, turns, s) <==> Reaches(disk, Choices(turns), s)
  {
    OrdinaryRun(Init(disk), turns);
    forall i | 0 <= i <= |turns|
      ensures WideRun(Init(disk), turns[..i]) == Run(Init(disk), Choices(turns)[..i])
    {
      OrdinaryRun(Init(disk), turns[..i]);
      assert Choices(turns)[..i] == Choices(turns[..i]);
    }
  }

  // ----- what holds whatever throws

  /** The lock table is in order and says what the program counters say. */
  ghost predicate Books(s: State) {
    Sound(s.locks) && Tracks(s) && Shapes(s)
  }

  ghost predicate SameBooks(s: State, s': State, t: Tid) {
    && t in s.th && t in s'.th && s'.locks == s.locks && s'.th == s.th[t := s'.th[t]]
    && s'.th[t].op == s.th[t].op && Shaped(s'.th[t])
    && HeldKeys(s'.th[t]) == HeldKeys(s.th[t]) && RefKeys(s'.th[t]) == RefKeys(s.th[t])
    && LeakedKeys(s'.th[t]) == LeakedKeys(s.th[t])
  }

  lemma SaveBegins(s: State, t: Tid, a: Action)
    requires t in s.th && Shaped(s.th[t]) && s.th[t].op.Save? && (s.th[t].pc.Locked?)
    ensures SaveStep(s, t, a).Some? ==> SameBooks(s, SaveStep(s, t, a).value, t)
  {
  }

  lemma SaveBooks(s: State, t: Tid, a: Action)
    requires t in s.th && Shaped(s.th[t]) && s.th[t].op.Save? && SaveStep(s, t, a).Some?
    ensures SameBooks(s, SaveStep(s, t, a).value, t)
  {
    if s.th[t].pc.Locked? {
      SaveBegins(s, t, a);
    }
  }

  lemma StreamBegins(s: State, t: Tid, a: Action)
    requires t in s.th && Shaped(s.th[t]) && s.th[t].op.Stream? && (s.th[t].pc.Locked?)
    ensures StreamStep(s, t, a).Some? ==> SameBooks(s, StreamStep(s, t, a).value, t)
  {
  }

  lemma StreamBooks(s: State, t: Tid, a: Action)
    requires t in s.th && Shaped(s.th[t]) && s.th[t].op.Stream? && StreamStep(s, t, a).Some?
    ensures SameBooks(s, StreamStep(s, t, a).value, t)
  {
    if s.th[t].pc.Locked? {
      StreamBegins(s, t, a);
    }
  }

  lemma DeleteBooks(s: State, t: Tid, a: Action)
    requires t in s.th && Shaped(s.th[t]) && s.th[t].op.Delete? && DeleteStep(s, t, a).Some?
    ensures SameBooks(s, DeleteStep(s, t, a).value, t)
  {
  }

  lemma RenameBegins(s: State, t: Tid, a: Action)
    requires t in s.th && Shaped(s.th[t]) && s.th[t].op.Rename? && (s.th[t].pc.Locked? || s.th[t].pc.Move?)
    ensures RenameStep(s, t, a).Some? ==> SameBooks(s, RenameStep(s, t, a).value, t)
  {
  }

  lemma RenameBooks(s: State, t: Tid, a: Action)
    requires t in s.th && Shaped(s.th[t]) && s.th[t].op.Rename? && RenameStep(s, t, a).Some?
    ensures SameBooks(s, RenameStep(s, t, a).value, t)
  {
    if s.th[t].pc.Locked? || s.th[t].pc.Move? {
      RenameBegins(s, t, a);
    }
  }

  lemma ThrowBooks(s: State, t: Tid)
    requires t in s.th && Shaped(s.th[t])
    ensures ThrowStep(s, t).Some? ==> SameBooks(s, ThrowStep(s, t).value, t)
    ensures ThrowInCleanup(s, t).Some? ==> SameBooks(s, ThrowInCleanup(s, t).value, t)
  {
  }

  lemma DataBooks(s: State, t: Tid, a: Action)
    requires t in s.th && Shaped(s.th[t]) && DataStep(s, t, a).Some?
    ensures SameBooks(s, DataStep(s, t, a).value, t)
  {
    if a.Throw? {
      ThrowBooks(s, t);
    } else {
      match s.th[t].op
      case Save(_, _) => SaveBooks(s, t, a);
      case Stream(_) => StreamBooks(s, t, a);
      case Delete(_) => DeleteBooks(s, t, a);
      case Rename(_, _) => RenameBooks(s, t, a);
    }
  }

  lemma TracksKept(s: State, s': State, t: Tid)
    requires Tracks(s) && SameBooks(s, s', t)
    ensures Tracks(s')
  {
  }

  lemma BooksKept(s: State, s': State, t: Tid)
    requires Books(s) && SameBooks(s, s', t)
    ensures Books(s')
  {
    TracksKept(s, s', t);
  }

  lemma LockBooks(s: State, t: Tid, a: Action)
    requires Books(s) && t in s.th && LockStep(s, t, a).Some?
    requires Bounded(s.locks) && Bounded(LockStep(s, t, a).value.locks)
    ensures Books(LockStep(s, t, a).value)
  {
    var s' := LockStep(s, t, a).value;
    var (d, pc) := Plan(s.th[t].op, s.th[t].pc, a).value;
    PlanOk(s.th[t], a);
    assert Performs(s, s', t, d);
    DeedTracks(s, s', t, d);
    DeedLocks(s.locks, t, s.th[t].op, d);
  }

  lemma WideBooks(s: State, u: Turn)
    requires Books(s) && WideStep(s, u).Some?
    requires Bounded(s.locks) && Bounded(WideStep(s, u).value.locks)
    ensures Books(WideStep(s, u).value)
  {
    var s' := WideStep(s, u).value;
    if u.CleanupThrows? {
      ThrowBooks(s, u.t);
      BooksKept(s, s', u.t);
    } else if u.a.Spawn? {
      SpawnTracks(s, u.t, u.a.op);
    } else if LockStep(s, u.t, u.a).Some? {
      LockBooks(s, u.t, u.a);
    } else {
      DataBooks(s, u.t, u.a);
      BooksKept(s, s', u.t);
    }
  }

  lemma {:induction false} BooksAlways(disk: map<Key, Bytes>, turns: seq<Turn>, s: State)
    requires WideReaches(disk, turns, s)
    ensures Books(s)
    decreases |turns|
  {
    InitInv(disk);
    if turns != [] {
      var n := |turns| - 1;
      var before := turns[..n];
      var m := WideRun(Init(disk), before).value;
      assert forall i :: 0 <= i <= n ==> before[..i] == turns[..i];
      assert before[..n] == before && turns[..n + 1] == turns;
      BooksAlways(disk, before, m);
      WideBooks(m, turns[n]);
    }
  }

  /** Writers exclude everybody else on their paths, and counts are exact, whatever throws. */
  lemma ExclusionAlways(disk: map<Key, Bytes>, turns: seq<Turn>, s: State, t: Tid, u: Tid, k: Key)
    requires WideReaches(disk, turns, s)
    requires t in s.th && u in s.th && t != u && k in HeldKeys(s.th[t]) && k in HeldKeys(s.th[u])
    ensures s.th[t].op.Stream? && s.th[u].op.Stream?
    ensures Hold(t, k) in s.locks.refs && Hold(u, k) in s.locks.refs
    ensures s.locks.refs[Hold(t, k)] == s.locks.refs[Hold(u, k)]
  {
    BooksAlways(disk, turns, s);
    TracksExclude(s, t, u, k);
  }

  lemma CountAlways(disk: map<Key, Bytes>, turns: seq<Turn>, s: State, k: Key)
    requires WideReaches(disk, turns, s)
    ensures k in s.locks.table <==> |LiveRefs(s, k)| + |LeakedRefs(s, k)| > 0
    ensures k in s.locks.table ==> s.locks.table[k] in s.locks.entries
    ensures k in s.locks.table ==>
      s.locks.entries[s.locks.table[k]].count == |LiveRefs(s, k)| + |LeakedRefs(s, k)|
  {
    BooksAlways(disk, turns, s);
    TracksCount(s, k);
  }

  // ----- what does not

  /** Some run ends in `s`, with operations few enough for counts not to overflow. */
  ghost predicate Wide(disk: map<Key, Bytes>, s: State, ops: nat) {
    |s.th.Keys| <= ops < COUNT_LIMIT && exists turns :: WideReaches(disk, turns, s)
  }

  lemma LiveWide(c: Course, s: State, ops: nat)
    requires Live(c, s, ops)
    ensures Wide(c.disk, s, ops)
  {
    var choices: seq<Choice>, i: nat :| Passes(c.disk, choices, i, c.mid, s);
    var turns := seq(|choices|, i requires 0 <= i < |choices| => Usual(choices[i].0, choices[i].1));
    assert Choices(turns) == choices;
    NoneThrew(c.disk, turns, s);
    assert WideReaches(c.disk, turns, s);
  }

  lemma WideRoom(disk: map<Key, Bytes>, s: State, ops: nat)
    requires Wide(disk, s, ops)
    ensures Books(s) && Room(s) && Bounded(s.locks)
  {
    var turns :| WideReaches(disk, turns, s);
    BooksAlways(disk, turns, s);
    forall k ensures |Concerned(s, k)| < COUNT_LIMIT {
      SubsetSize(Concerned(s, k), s.th.Keys);
    }
    RoomBounded(s);
  }

  lemma WideMore(disk: map<Key, Bytes>, s: State, ops: nat, u: Turn, s': State, ops': nat)
    requires Wide(disk, s, ops) && WideStep(s, u) == Some(s') && Bounded(s'.locks)
    requires |s'.th.Keys| <= ops' < COUNT_LIMIT
    ensures Wide(disk, s', ops')
  {
    var turns :| WideReaches(disk, turns, s);
    ReachesOneMore(disk, turns, s, u, s');
  }

  lemma ReachesOneMore(disk: map<Key, Bytes>, turns: seq<Turn>, s: State, u: Turn, s': State)
    requires WideReaches(disk, turns, s) && WideStep(s, u) == Some(s') && Bounded(s'.locks)
    ensures WideReaches(disk, turns + [u], s')
  {
    var more := turns + [u];
    assert more[..|turns|] == turns && WideRun(Init(disk), more) == Some(s');
    forall i | 0 <= i <= |more| && WideRun(Init(disk), more[..i]).Some?
      ensures Bounded(WideRun(Init(disk), more[..i]).value.locks)
    {
      if i <= |turns| {
        assert more[..i] == turns[..i];
      } else {
        assert more[..i] == more;
      }
    }
  }

  /** Only locks and the operation's program counter have changed. */
  ghost predicate Went(s: State, s': State, t: Tid, pc: Pc) {
    t in s.th && s' == s.(locks := s'.locks, th := s.th[t := s.th[t].(pc := pc)])
  }

  lemma SoloAlone(s: State, t: Tid)
    requires Solo(s, t)
    ensures Alone(s, t)
  {
  }

  lemma BoundedCall(s: State, t: Tid, a: Action, d: Deed, pc: Pc) returns (s': State)
    requires Books(s) && Room(s) && Alone(s, t) && !a.Spawn?
    requires Plan(s.th[t].op, s.th[t].pc, a) == Some((d, pc))
    requires (d.Take? ==> d.id !in s.locks.entries) && (d.Own? ==> d.k !in HeldKeys(s.th[t]))
    ensures Step(s, t, a) == Some(s') && Bounded(s'.locks) && Went(s, s', t, pc)
  {
    CallAllowed(s, t, a, d, pc);
    s' := CallGoes(s, t, a, d, pc);
    StepBounded(s, t, a);
  }

  lemma WideCall(disk: map<Key, Bytes>, s: State, ops: nat, t: Tid, a: Action, d: Deed, pc: Pc)
    returns (s': State)
    requires Wide(disk, s, ops) && Solo(s, t) && !a.Spawn? && Plan(s.th[t].op, s.th[t].pc, a) == Some((d, pc))
    requires (d.Take? ==> d.id !in s.locks.entries) && (d.Own? ==> d.k !in HeldKeys(s.th[t]))
    ensures Wide(disk, s', ops) && Went(s, s', t, pc) && Solo(s', t)
  {
    WideRoom(disk, s, ops);
    SoloAlone(s, t);
    s' := BoundedCall(s, t, a, d, pc);
    SoloStays(s, s', t, s.th[t].(pc := pc));
    WideMore(disk, s, ops, Usual(t, a), s', ops);
  }

  lemma WideWork(disk: map<Key, Bytes>, s: State, ops: nat, u: Turn, s': State)
    requires Wide(disk, s, ops) && Solo(s, u.t) && WideStep(s, u) == Some(s') && SameBooks(s, s', u.t)
    ensures Wide(disk, s', ops) && Solo(s', u.t) && s'.th.Keys == s.th.Keys
  {
    WideRoom(disk, s, ops);
    SoloStays(s, s', u.t, s'.th[u.t]);
    WideMore(disk, s, ops, u, s', ops);
  }

  /** Leaving the scope of a critical section on one path. */
  lemma WideLeave(disk: map<Key, Bytes>, s: State, ops: nat, t: Tid, out: Outcome) returns (s': State)
    requires Wide(disk, s, ops) && Solo(s, t) && !s.th[t].op.Rename? && s.th[t].pc == Bail(out)
    ensures Wide(disk, s', ops) && AtRest(s') && Went(s, s', t, Done(out)) && s'.th.Keys == s.th.Keys
  {
    var th := s.th[t];
    PlanOne(th.op, 0, out);
    var s1 := WideCall(disk, s, ops, t, Next, Disown(th.op.First()), BailEnd(out));
    s' := WideCall(disk, s1, ops, t, Next, Forget, Done(out));
    Twice(s.th, t, th.(pc := BailEnd(out)), th.(pc := Done(out)));
    AloneRest(s, s', t, th.(pc := Done(out)));
  }

  lemma WideEnter(disk: map<Key, Bytes>, s: State, ops: nat, t: Tid, op: Op) returns (s': State)
    requires Wide(disk, s, ops) && ops + 1 < COUNT_LIMIT && AtRest(s) && t !in s.th && !op.Rename?
    ensures Wide(disk, s', ops + 1) && Solo(s', t) && s'.th.Keys == s.th.Keys + {t}
    ensures s' == s.(locks := s'.locks, th := s.th[t := Thread(op, Locked, |s.hist|, None)])
  {
    WideRoom(disk, s, ops);
    var s1 := Spawned(s, t, op);
    assert s1.th.Keys == s.th.Keys + {t};
    WideMore(disk, s, ops, Usual(t, Spawn(op)), s1, ops + 1);
    var id := FreshId(s1.locks.entries.Keys);
    PlanOne(op, id, Refused);
    var th := s1.th[t];
    var s2 := WideCall(disk, s1, ops + 1, t, TakeRef(id), Take(op.First(), id), Wait);
    s' := WideCall(disk, s2, ops + 1, t, Next, Own(op.First()), Locked);
    Twice(s.th, t, th, th.(pc := Wait));
    Twice(s.th, t, th.(pc := Wait), th.(pc := Locked));
  }

  /** An upload of one byte over a file is broken before the byte comes, and the cleanup throws. */
  lemma Spoiled(disk: map<Key, Bytes>, s: State, t: Tid, k: Key) returns (s1: State, s2: State, s3: State)
    requires At(s, t, Save(k, 1), Locked) && k in s.disk
    ensures WideStep(s, Usual(t, Next)) == Some(s1) && SameBooks(s, s1, t)
    ensures WideStep(s1, Usual(t, ReceiveFails)) == Some(s2) && SameBooks(s1, s2, t)
    ensures WideStep(s2, CleanupThrows(t)) == Some(s3) && SameBooks(s2, s3, t)
    ensures At(s3, t, Save(k, 1), Bail(SaveFailed))
    ensures s3.disk == s.disk[k := []] && s3.index == s.index
    ensures s3.hist == s.hist + [Event(t, Save(k, 1), SaveFailed)]
  {
    s1 := DataStep(s, t, Next).value;
    s2 := DataStep(s1, t, ReceiveFails).value;
    s3 := ThrowInCleanup(s2, t).value;
  }

  /** A download of an empty file. */
  lemma ReadEmpty(s: State, t: Tid, k: Key) returns (s1: State, s2: State)
    requires At(s, t, Stream(k), Locked) && k in s.disk && s.disk[k] == []
    ensures WideStep(s, Usual(t, Next)) == Some(s1) && SameBooks(s, s1, t)
    ensures WideStep(s1, Usual(t, Next)) == Some(s2) && SameBooks(s1, s2, t)
    ensures At(s2, t, Stream(k), Bail(Sent([])))
    ensures s2.disk == s.disk && s2.index == s.index
    ensures s2.hist == s.hist + [Event(t, Stream(k), Sent([]))]
  {
    s1 := DataStep(s, t, Next).value;
    assert NextChunk(s1, k, []) == [];
    s2 := DataStep(s1, t, Next).value;
  }

  /** After a cleanup that threw the index does not agree with the disk, and a completed download
      has sent what nobody stored. */
  lemma CleanupThrew(k: Key, b: byte, t: Tid, u: Tid) returns (turns: seq<Turn>, s: State)
    requires t != u
    ensures WideReaches(map[k := [b]], turns, s) && AtRest(s)
    ensures k in s.disk && k in s.index && |s.disk[k]| == 0 && s.index[k] == 1
    ensures u in s.th && s.th[u].op == Stream(k) && s.th[u].pc == Done(Sent([]))
    ensures forall o :: !WholePayload(map[k := [b]], s.hist, o, [])
  {
    var disk := map[k := [b]];
    LiveInit(disk);
    LiveWide(Course(disk, Init(disk)), Init(disk), 0);
    var spoilt := SpoilFile(disk, Init(disk), t, k);
    s := ReadSpoilt(disk, spoilt, u, k);
    turns :| WideReaches(disk, turns, s);
    var e, f := Event(t, Save(k, 1), SaveFailed), Event(u, Stream(k), Sent([]));
    assert s.hist == [e, f];
    NobodyStored(k, b, e, f);
  }

  lemma NobodyStored(k: Key, b: byte, e: Event, f: Event)
    requires !e.out.Saved? && !f.out.Saved?
    ensures forall o :: !WholePayload(map[k := [b]], [e, f], o, [])
  {
  }

  lemma SpoilFile(disk: map<Key, Bytes>, s: State, t: Tid, k: Key) returns (s': State)
    requires Wide(disk, s, 0) && AtRest(s) && t !in s.th && k in s.disk
    ensures Wide(disk, s', 1) && AtRest(s') && s'.th.Keys == s.th.Keys + {t}
    ensures s'.disk == s.disk[k := []] && s'.index == s.index
    ensures s'.hist == s.hist + [Event(t, Save(k, 1), SaveFailed)]
  {
    var s0 := WideEnter(disk, s, 0, t, Save(k, 1));
    var s1, s2, s3 := Spoiled(disk, s0, t, k);
    WideWork(disk, s0, 1, Usual(t, Next), s1);
    WideWork(disk, s1, 1, Usual(t, ReceiveFails), s2);
    WideWork(disk, s2, 1, CleanupThrows(t), s3);
    s' := WideLeave(disk, s3, 1, t, SaveFailed);
  }

  lemma ReadSpoilt(disk: map<Key, Bytes>, s: State, t: Tid, k: Key) returns (s': State)
    requires Wide(disk, s, 1) && AtRest(s) && t !in s.th && k in s.disk && s.disk[k] == []
    ensures Wide(disk, s', 2) && AtRest(s') && At(s', t, Stream(k), Done(Sent([])))
    ensures s'.disk == s.disk && s'.index == s.index
    ensures s'.hist == s.hist + [Event(t, Stream(k), Sent([]))]
  {
    var s0 := WideEnter(disk, s, 1, t, Stream(k));
    var s1, s2 := ReadEmpty(s0, t, k);
    WideWork(disk, s0, 2, Usual(t, Next), s1);
    WideWork(disk, s1, 2, Usual(t, Next), s2);
    s' := WideLeave(disk, s2, 2, t, Sent([]));
  }
}
