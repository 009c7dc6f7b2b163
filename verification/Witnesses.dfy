/** Concrete runs for what the file store does not promise. */
module Witnesses {
  import opened Basics
  import opened AtomicStore
  import opened FileLocks
  import opened StoreMachine
  import opened StoreInvariant
  import opened StoreSteps
  import opened StoreLocking
  import opened StorePreserved
  import opened StoreTheorems
  import opened StoreProgress
  import opened Announced
  import opened Waits

  // ----- running one operation at a time

  /** A startup disk, and a state to come by. */
  datatype Course = Course(disk: map<Key, Bytes>, mid: State)

  /** A run from `disk` to `s` that comes by the state `m`. */
  ghost predicate Passes(disk: map<Key, Bytes>, choices: seq<Choice>, i: nat, m: State, s: State) {
    Reaches(disk, choices, s) && i <= |choices| && Run(Init(disk), choices[..i]) == Some(m)
  }

  /** Some run of the course ends in `s`; its operations are few enough for counts not to overflow. */
  ghost predicate Live(c: Course, s: State, ops: nat) {
    |s.th.Keys| <= ops < COUNT_LIMIT && exists choices, i: nat :: Passes(c.disk, choices, i, c.mid, s)
  }

  lemma LiveInit(disk: map<Key, Bytes>)
    ensures Live(Course(disk, Init(disk)), Init(disk), 0)
  {
    var none: seq<Choice> := [];
    assert Run(Init(disk), none) == Some(Init(disk));
    assert forall i :: 0 <= i <= |none| ==> none[..i] == none;
    assert Passes(disk, none, 0, Init(disk), Init(disk));
  }

  /** The state reached is one to come by. */
  lemma Mark(c: Course, s: State, ops: nat) returns (d: Course)
    requires Live(c, s, ops)
    ensures d == Course(c.disk, s) && Live(d, s, ops)
  {
    d := Course(c.disk, s);
    var choices, i: nat :| Passes(c.disk, choices, i, c.mid, s);
    assert choices[..|choices|] == choices;
    assert Passes(c.disk, choices, |choices|, s, s);
  }

  lemma LiveInv(c: Course, s: State, ops: nat)
    requires Live(c, s, ops)
    ensures Inv(s, Store(c.disk, map[])) && Room(s) && Bounded(s.locks)
  {
    var choices, i: nat :| Passes(c.disk, choices, i, c.mid, s);
    ReachesInv(c.disk, choices, s);
    forall k ensures |Concerned(s, k)| < COUNT_LIMIT {
      SubsetSize(Concerned(s, k), s.th.Keys);
    }
    RoomBounded(s);
  }

  lemma LiveMore(c: Course, s: State, ops: nat, t: Tid, a: Action, s': State, ops': nat)
    requires Live(c, s, ops) && Step(s, t, a) == Some(s') && Bounded(s'.locks)
    requires |s'.th.Keys| <= ops' < COUNT_LIMIT
    ensures Live(c, s', ops')
  {
    var choices, i: nat :| Passes(c.disk, choices, i, c.mid, s);
    PassesMore(c.disk, choices, i, c.mid, s, t, a);
    assert Passes(c.disk, choices + [(t, a)], i, c.mid, s');
  }

  lemma PassesMore(disk: map<Key, Bytes>, choices: seq<Choice>, i: nat, m: State, s: State, t: Tid, a: Action)
    requires Passes(disk, choices, i, m, s) && Step(s, t, a).Some? && Bounded(Step(s, t, a).value.locks)
    ensures Passes(disk, choices + [(t, a)], i, m, Step(s, t, a).value)
  {
    ReachesMore(disk, choices, s, t, a);
    assert (choices + [(t, a)])[..i] == choices[..i];
  }

  lemma ReachesMore(disk: map<Key, Bytes>, choices: seq<Choice>, s: State, t: Tid, a: Action)
    requires Reaches(disk, choices, s) && Step(s, t, a).Some? && Bounded(Step(s, t, a).value.locks)
    ensures Reaches(disk, choices + [(t, a)], Step(s, t, a).value)
  {
    var more := choices + [(t, a)];
    assert more[..|choices|] == choices;
    forall i | 0 <= i <= |more| && Run(Init(disk), more[..i]).Some?
      ensures Bounded(Run(Init(disk), more[..i]).value.locks)
    {
      if i <= |choices| {
        assert more[..i] == choices[..i];
      } else {
        assert more[..i] == more;
      }
    }
  }

  lemma Start(c: Course, s: State, ops: nat, t: Tid, op: Op)
    requires Live(c, s, ops) && ops + 1 < COUNT_LIMIT && t !in s.th && WellFormed(op)
    ensures Live(c, Spawned(s, t, op), ops + 1)
  {
    LiveInv(c, s, ops);
    assert Spawned(s, t, op).th.Keys == s.th.Keys + {t};
    LiveMore(c, s, ops, t, Spawn(op), Spawned(s, t, op), ops + 1);
  }

  lemma Twice(m: map<Tid, Thread>, t: Tid, a: Thread, b: Thread)
    ensures m[t := a][t := b] == m[t := b]
  {
  }

  /** The calls of an operation on one path, in order. */
  lemma PlanOne(op: Op, id: Id, out: Outcome)
    requires !op.Rename?
    ensures Plan(op, Pc.Start, TakeRef(id)) == Some((Take(op.First(), id), Wait))
    ensures Plan(op, Wait, Next) == Some((Own(op.First()), Locked))
    ensures Plan(op, Pc.Unlock(out), Next) == Some((Disown(op.First()), Pc.Release(out)))
    ensures Plan(op, Pc.Release(out), Next) == Some((Return(op.First()), Done(out)))
    ensures Plan(op, Bail(out), Next) == Some((Disown(op.First()), BailEnd(out)))
    ensures Plan(op, BailEnd(out), Next) == Some((Forget, Done(out)))
  {
  }

  lemma StillAlone(s: State, s': State, t: Tid, th: Thread)
    requires Alone(s, t) && s'.th == s.th[t := th]
    ensures Alone(s', t)
  {
  }

  /** Nobody but `t` holds a lock. */
  ghost predicate Alone(s: State, t: Tid) {
    t in s.th && forall u :: u in s.th && u != t ==> HeldKeys(s.th[u]) == {}
  }

  /** A lock step of an operation nobody stands in the way of. */
  lemma Call(c: Course, s: State, ops: nat, t: Tid, a: Action, d: Deed, pc: Pc)
    returns (s': State)
    requires Live(c, s, ops) && Alone(s, t) && !a.Spawn? && Plan(s.th[t].op, s.th[t].pc, a) == Some((d, pc))
    requires (d.Take? ==> d.id !in s.locks.entries) && (d.Own? ==> d.k !in HeldKeys(s.th[t]))
    ensures Live(c, s', ops)
    ensures s' == s.(locks := s'.locks, th := s.th[t := s.th[t].(pc := pc)])
  {
    LiveInv(c, s, ops);
    CallAllowed(s, t, a, d, pc);
    s' := CallGoes(s, t, a, d, pc);
    StepBounded(s, t, a);
    assert s'.th.Keys == s.th.Keys;
    LiveMore(c, s, ops, t, a, s', ops);
  }

  lemma CallAllowed(s: State, t: Tid, a: Action, d: Deed, pc: Pc)
    requires Sound(s.locks) && Tracks(s) && Alone(s, t) && Shaped(s.th[t])
    requires Plan(s.th[t].op, s.th[t].pc, a) == Some((d, pc))
    requires (d.Take? ==> d.id !in s.locks.entries) && (d.Own? ==> d.k !in HeldKeys(s.th[t]))
    ensures Perform(s.locks, t, s.th[t].op, d).Some?
  {
    PlanNeeds(s.th[t], a);
    Granted(s, t, d);
  }

  lemma CallGoes(s: State, t: Tid, a: Action, d: Deed, pc: Pc) returns (s': State)
    requires t in s.th && Plan(s.th[t].op, s.th[t].pc, a) == Some((d, pc))
    requires Perform(s.locks, t, s.th[t].op, d).Some?
    ensures LockStep(s, t, a) == Some(s')
    ensures s' == s.(locks := s'.locks, th := s.th[t := s.th[t].(pc := pc)])
  {
    var l := Perform(s.locks, t, s.th[t].op, d).value;
    s' := Goto(s.(locks := l), t, pc);
  }

  lemma Work(c: Course, s: State, ops: nat, t: Tid, a: Action)
    requires Live(c, s, ops) && t in s.th && !a.Spawn?
    requires Plan(s.th[t].op, s.th[t].pc, a).None? && DataStep(s, t, a).Some?
    ensures Live(c, DataStep(s, t, a).value, ops)
  {
    LiveInv(c, s, ops);
    LocalFromInv(s, Store(c.disk, map[]), t);
    DataStepOk(s, t, a);
    var s' := DataStep(s, t, a).value;
    assert s'.th.Keys == s.th.Keys;
    LiveMore(c, s, ops, t, a, s', ops);
  }

  /** An upload, download or deletion alone comes to its critical section. */
  lemma Enter(c: Course, s: State, ops: nat, t: Tid, op: Op)
    returns (s': State)
    requires Live(c, s, ops) && ops + 1 < COUNT_LIMIT && AtRest(s) && t !in s.th && !op.Rename?
    ensures Live(c, s', ops + 1)
    ensures s' == s.(locks := s'.locks, th := s.th[t := Thread(op, Locked, |s.hist|, None)])
  {
    var th := Thread(op, Wait, |s.hist|, None);
    var s2 := Queue(c, s, ops, t, op);
    PlanOne(op, 0, Refused);
    s' := Call(c, s2, ops + 1, t, Next, Own(op.First()), Locked);
    Twice(s.th, t, th, th.(pc := Locked));
  }

  lemma RestAlone(s: State, s': State, t: Tid, th: Thread)
    requires AtRest(s) && s'.th == s.th[t := th]
    ensures Alone(s', t)
  {
  }

  lemma AloneRest(s: State, s': State, t: Tid, th: Thread)
    requires Solo(s, t) && s'.th == s.th[t := th] && th.pc.Done?
    ensures AtRest(s') && s'.th.Keys == s.th.Keys
  {
  }

  lemma Queue(c: Course, s: State, ops: nat, t: Tid, op: Op)
    returns (s': State)
    requires Live(c, s, ops) && ops + 1 < COUNT_LIMIT && AtRest(s) && t !in s.th && !op.Rename?
    ensures Live(c, s', ops + 1) && Alone(s', t)
    ensures s' == s.(locks := s'.locks, th := s.th[t := Thread(op, Wait, |s.hist|, None)])
  {
    var th := Thread(op, Pc.Start, |s.hist|, None);
    Start(c, s, ops, t, op);
    var s1 := Spawned(s, t, op);
    var id := FreshId(s1.locks.entries.Keys);
    PlanOne(op, id, Refused);
    RestAlone(s, s1, t, th);
    s' := Call(c, s1, ops + 1, t, TakeRef(id), Take(op.First(), id), Wait);
    StillAlone(s1, s', t, th.(pc := Wait));
    Twice(s.th, t, th, th.(pc := Wait));
  }

  /** An operation alone that has its answer comes to its end. */
  lemma Leave(c: Course, s: State, ops: nat, t: Tid, out: Outcome)
    returns (s': State)
    requires Live(c, s, ops) && Alone(s, t) && !s.th[t].op.Rename?
    requires s.th[t].pc == Pc.Unlock(out) || s.th[t].pc == Bail(out)
    ensures Live(c, s', ops)
    ensures s' == s.(locks := s'.locks, th := s.th[t := s.th[t].(pc := Done(out))])
  {
    var th := s.th[t];
    PlanOne(th.op, 0, out);
    if th.pc.Unlock? {
      s' := LeaveBy(c, s, ops, t, Disown(th.op.First()), Pc.Release(out), Return(th.op.First()), Done(out));
    } else {
      s' := LeaveBy(c, s, ops, t, Disown(th.op.First()), BailEnd(out), Forget, Done(out));
    }
  }

  lemma LeaveBy(c: Course, s: State, ops: nat, t: Tid, d: Deed, pc: Pc, e: Deed, last: Pc)
    returns (s': State)
    requires Live(c, s, ops) && Alone(s, t) && !d.Take? && !d.Own? && !e.Take? && !e.Own?
    requires Plan(s.th[t].op, s.th[t].pc, Next) == Some((d, pc)) && Plan(s.th[t].op, pc, Next) == Some((e, last))
    ensures Live(c, s', ops)
    ensures s' == s.(locks := s'.locks, th := s.th[t := s.th[t].(pc := last)])
  {
    var th := s.th[t];
    var s1 := Call(c, s, ops, t, Next, d, pc);
    StillAlone(s, s1, t, th.(pc := pc));
    s' := Call(c, s1, ops, t, Next, e, last);
    Twice(s.th, t, th.(pc := pc), th.(pc := last));
  }

  // ----- the steps of one operation

  ghost predicate After(s: State, s': State, t: Tid, pc: Pc, disk: map<Key, Bytes>, index: map<Key, nat>) {
    && t in s.th && t in s'.th && s'.th == s.th[t := s'.th[t]]
    && s'.th[t].op == s.th[t].op && s'.th[t].pc == pc && s'.disk == disk && s'.index == index
  }

  ghost predicate At(s: State, t: Tid, op: Op, pc: Pc) {
    t in s.th && s.th[t].op == op && s.th[t].pc == pc
  }

  lemma Truncates(s: State, t: Tid, k: Key, n: nat)
    requires At(s, t, Save(k, n), Locked)
    ensures DataStep(s, t, Next).Some?
    ensures After(s, DataStep(s, t, Next).value, t, Writing([]), s.disk[k := []], s.index)
  {
  }

  lemma Commits(s: State, t: Tid, k: Key)
    requires At(s, t, Save(k, 0), Writing([]))
    ensures DataStep(s, t, Next).Some?
    ensures After(s, DataStep(s, t, Next).value, t, Pc.Unlock(Saved([])), s.disk, s.index[k := 0])
  {
  }

  lemma Breaks(s: State, t: Tid, k: Key)
    requires At(s, t, Save(k, 1), Writing([]))
    ensures DataStep(s, t, ReceiveFails).Some?
    ensures After(s, DataStep(s, t, ReceiveFails).value, t, Broken([]), s.disk, s.index)
  {
  }

  lemma Removes(s: State, t: Tid, k: Key)
    requires At(s, t, Save(k, 1), Broken([]))
    ensures DataStep(s, t, Next).Some?
    ensures After(s, DataStep(s, t, Next).value, t, Bail(SaveFailed), s.disk - {k}, s.index)
  {
  }

  lemma Opens(s: State, t: Tid, k: Key)
    requires At(s, t, Stream(k), Locked) && k in s.disk
    ensures DataStep(s, t, Next).Some?
    ensures After(s, DataStep(s, t, Next).value, t, Reading([]), s.disk, s.index)
  {
  }

  lemma SendsAll(s: State, t: Tid, k: Key)
    requires At(s, t, Stream(k), Reading([])) && k in s.disk && |s.disk[k]| < TRANSFER_BUFFER_SIZE
    ensures DataStep(s, t, Next).Some?
    ensures After(s, DataStep(s, t, Next).value, t, Bail(Sent(s.disk[k])), s.disk, s.index)
  {
    assert NextChunk(s, k, []) == s.disk[k] && [] + s.disk[k] == s.disk[k];
  }

  /** `t` is the only operation not done. */
  ghost predicate Solo(s: State, t: Tid) {
    t in s.th && forall u :: u in s.th && u != t ==> s.th[u].pc.Done?
  }

  lemma WorkOn(c: Course, s: State, ops: nat, t: Tid, a: Action, s': State, pc: Pc)
    requires Live(c, s, ops) && Solo(s, t) && !a.Spawn? && DataStep(s, t, a) == Some(s')
    requires s.th[t].pc.Locked? || !Plain(s.th[t].pc)
    requires After(s, s', t, pc, s'.disk, s'.index)
    ensures Live(c, s', ops) && Solo(s', t) && At(s', t, s.th[t].op, pc) && s'.th.Keys == s.th.Keys
  {
    NoCall(s.th[t], a);
    Work(c, s, ops, t, a);
  }

  /** A step of the only operation not done. */
  ghost predicate Did(c: Course, s: State, ops: nat, t: Tid, s': State, pc: Pc,
                      files: map<Key, Bytes>, index: map<Key, nat>)
  {
    && Live(c, s', ops) && Solo(s', t) && t in s.th && At(s', t, s.th[t].op, pc)
    && s'.th.Keys == s.th.Keys && s'.disk == files && s'.index == index
  }

  lemma Truncate(c: Course, s: State, ops: nat, t: Tid, k: Key, n: nat) returns (s': State)
    requires Live(c, s, ops) && Solo(s, t) && At(s, t, Save(k, n), Locked)
    ensures Did(c, s, ops, t, s', Writing([]), s.disk[k := []], s.index)
  {
    Truncates(s, t, k, n);
    s' := DataStep(s, t, Next).value;
    WorkOn(c, s, ops, t, Next, s', Writing([]));
  }

  lemma Commit(c: Course, s: State, ops: nat, t: Tid, k: Key) returns (s': State)
    requires Live(c, s, ops) && Solo(s, t) && At(s, t, Save(k, 0), Writing([]))
    ensures Did(c, s, ops, t, s', Pc.Unlock(Saved([])), s.disk, s.index[k := 0])
  {
    Commits(s, t, k);
    s' := DataStep(s, t, Next).value;
    WorkOn(c, s, ops, t, Next, s', Pc.Unlock(Saved([])));
  }

  lemma Break(c: Course, s: State, ops: nat, t: Tid, k: Key) returns (s': State)
    requires Live(c, s, ops) && Solo(s, t) && At(s, t, Save(k, 1), Writing([]))
    ensures Did(c, s, ops, t, s', Bail(SaveFailed), s.disk - {k}, s.index)
  {
    Breaks(s, t, k);
    var s1 := DataStep(s, t, ReceiveFails).value;
    WorkOn(c, s, ops, t, ReceiveFails, s1, Broken([]));
    Removes(s1, t, k);
    s' := DataStep(s1, t, Next).value;
    WorkOn(c, s1, ops, t, Next, s', Bail(SaveFailed));
  }

  lemma Open(c: Course, s: State, ops: nat, t: Tid, k: Key) returns (s': State)
    requires Live(c, s, ops) && Solo(s, t) && At(s, t, Stream(k), Locked) && k in s.disk
    ensures Did(c, s, ops, t, s', Reading([]), s.disk, s.index)
  {
    Opens(s, t, k);
    s' := DataStep(s, t, Next).value;
    WorkOn(c, s, ops, t, Next, s', Reading([]));
  }

  lemma Send(c: Course, s: State, ops: nat, t: Tid, k: Key) returns (s': State)
    requires Live(c, s, ops) && Solo(s, t) && At(s, t, Stream(k), Reading([]))
    requires k in s.disk && |s.disk[k]| < TRANSFER_BUFFER_SIZE
    ensures Did(c, s, ops, t, s', Bail(Sent(s.disk[k])), s.disk, s.index)
  {
    SendsAll(s, t, k);
    s' := DataStep(s, t, Next).value;
    WorkOn(c, s, ops, t, Next, s', Bail(Sent(s.disk[k])));
  }

  lemma EnterAlone(c: Course, s: State, ops: nat, t: Tid, op: Op) returns (s': State)
    requires Live(c, s, ops) && ops + 1 < COUNT_LIMIT && AtRest(s) && t !in s.th && !op.Rename?
    ensures Live(c, s', ops + 1) && Solo(s', t) && At(s', t, op, Locked)
    ensures s'.disk == s.disk && s'.index == s.index && s'.th.Keys == s.th.Keys + {t}
  {
    s' := Enter(c, s, ops, t, op);
  }

  lemma LeaveAlone(c: Course, s: State, ops: nat, t: Tid, op: Op, out: Outcome) returns (s': State)
    requires Live(c, s, ops) && Solo(s, t) && !op.Rename?
    requires At(s, t, op, Pc.Unlock(out)) || At(s, t, op, Bail(out))
    ensures Live(c, s', ops) && AtRest(s') && At(s', t, op, Done(out))
    ensures s'.disk == s.disk && s'.index == s.index && s'.th.Keys == s.th.Keys
  {
    assert Alone(s, t);
    s' := Leave(c, s, ops, t, out);
    AloneRest(s, s', t, s.th[t].(pc := Done(out)));
  }

  lemma CallOn(c: Course, s: State, ops: nat, t: Tid, a: Action, d: Deed, pc: Pc) returns (s': State)
    requires Live(c, s, ops) && Solo(s, t) && !a.Spawn? && Plan(s.th[t].op, s.th[t].pc, a) == Some((d, pc))
    requires (d.Take? ==> d.id !in s.locks.entries) && (d.Own? ==> d.k !in HeldKeys(s.th[t]))
    ensures Did(c, s, ops, t, s', pc, s.disk, s.index)
  {
    s' := Call(c, s, ops, t, a, d, pc);
    SoloStays(s, s', t, s.th[t].(pc := pc));
  }

  lemma SoloStays(s: State, s': State, t: Tid, th: Thread)
    requires Solo(s, t) && s'.th == s.th[t := th]
    ensures Solo(s', t) && s'.th.Keys == s.th.Keys
  {
  }

  // ----- a rename, a deletion, a download of nothing

  /** The calls of a rename, in order. */
  lemma PlanTwo(op: Op, id: Id, out: Outcome)
    requires op.Rename? && op.src != op.dst
    ensures Plan(op, Pc.Start, TakeRef(id)) == Some((Take(op.src, id), SecondRef))
    ensures Plan(op, SecondRef, TakeRef(id)) == Some((Take(op.dst, id), Wait))
    ensures Plan(op, Wait, TryFirst(op.src)) == Some((Own(op.src), HoldOne(op.src)))
    ensures Plan(op, HoldOne(op.src), Next) == Some((Own(op.dst), Locked))
    ensures Plan(op, Pc.Unlock(out), Next) == Some((Disown(op.src), Unlock2(out)))
    ensures Plan(op, Unlock2(out), Next) == Some((Disown(op.dst), Pc.Release(out)))
    ensures Plan(op, Pc.Release(out), Next) == Some((Return(op.src), Release2(out)))
    ensures Plan(op, Release2(out), Next) == Some((Return(op.dst), Done(out)))
  {
  }

  lemma EnterRename(c: Course, s: State, ops: nat, t: Tid, src: Key, dst: Key) returns (s': State)
    requires Live(c, s, ops) && ops + 1 < COUNT_LIMIT && AtRest(s) && t !in s.th && src != dst
    ensures Live(c, s', ops + 1) && Solo(s', t) && At(s', t, Rename(src, dst), Locked)
    ensures s'.disk == s.disk && s'.index == s.index && s'.th.Keys == s.th.Keys + {t}
  {
    var op := Rename(src, dst);
    Start(c, s, ops, t, op);
    var s1 := Spawned(s, t, op);
    var id1 := FreshId(s1.locks.entries.Keys);
    PlanTwo(op, id1, Refused);
    var s2 := CallOn(c, s1, ops + 1, t, TakeRef(id1), Take(src, id1), SecondRef);
    s' := LockBoth(c, s2, ops + 1, t, src, dst);
  }

  lemma LockBoth(c: Course, s: State, ops: nat, t: Tid, src: Key, dst: Key) returns (s': State)
    requires Live(c, s, ops) && Solo(s, t) && At(s, t, Rename(src, dst), SecondRef) && src != dst
    ensures Did(c, s, ops, t, s', Locked, s.disk, s.index)
  {
    var op := Rename(src, dst);
    var id2 := FreshId(s.locks.entries.Keys);
    PlanTwo(op, id2, Refused);
    var s1 := CallOn(c, s, ops, t, TakeRef(id2), Take(dst, id2), Wait);
    var s2 := CallOn(c, s1, ops, t, TryFirst(src), Own(src), HoldOne(src));
    s' := CallOn(c, s2, ops, t, Next, Own(dst), Locked);
  }

  lemma Moves(s: State, t: Tid, src: Key, dst: Key) returns (s1: State, s2: State)
    requires At(s, t, Rename(src, dst), Locked) && src in s.disk && dst !in s.disk
    ensures DataStep(s, t, Next) == Some(s1) && After(s, s1, t, Move, s.disk, s.index)
    ensures DataStep(s1, t, Next) == Some(s2)
    ensures After(s1, s2, t, Moved, (s.disk - {src})[dst := s.disk[src]], s.index)
  {
    s1 := DataStep(s, t, Next).value;
    s2 := DataStep(s1, t, Next).value;
  }

  lemma MoveOver(c: Course, s: State, ops: nat, t: Tid, src: Key, dst: Key) returns (s': State)
    requires Live(c, s, ops) && Solo(s, t) && At(s, t, Rename(src, dst), Locked)
    requires src in s.disk && dst !in s.disk
    ensures Did(c, s, ops, t, s', Moved, (s.disk - {src})[dst := s.disk[src]], s.index)
  {
    var s1, s2 := Moves(s, t, src, dst);
    WorkOn(c, s, ops, t, Next, s1, Move);
    WorkOn(c, s1, ops, t, Next, s2, Moved);
    s' := s2;
  }

  lemma Relinks(s: State, t: Tid, src: Key, dst: Key) returns (s1: State, s2: State, s3: State)
    requires At(s, t, Rename(src, dst), Moved) && src in s.index
    ensures DataStep(s, t, Next) == Some(s1) && After(s, s1, t, Sized(s.index[src]), s.disk, s.index)
    ensures DataStep(s1, t, Next) == Some(s2)
    ensures After(s1, s2, t, Relink(s.index[src]), s.disk, s.index - {src})
    ensures DataStep(s2, t, Next) == Some(s3)
    ensures After(s2, s3, t, Pc.Unlock(Renamed), s.disk, (s.index - {src})[dst := s.index[src]])
  {
    s1 := DataStep(s, t, Next).value;
    s2 := DataStep(s1, t, Next).value;
    s3 := DataStep(s2, t, Next).value;
  }

  lemma LinkOver(c: Course, s: State, ops: nat, t: Tid, src: Key, dst: Key) returns (s': State)
    requires Live(c, s, ops) && Solo(s, t) && At(s, t, Rename(src, dst), Moved) && src in s.index
    ensures Live(c, s', ops) && Solo(s', t) && At(s', t, Rename(src, dst), Pc.Unlock(Renamed))
    ensures s'.disk == s.disk && s'.th.Keys == s.th.Keys
  {
    var s1, s2, s3 := Relinks(s, t, src, dst);
    WorkOn(c, s, ops, t, Next, s1, Sized(s.index[src]));
    WorkOn(c, s1, ops, t, Next, s2, Relink(s.index[src]));
    WorkOn(c, s2, ops, t, Next, s3, Pc.Unlock(Renamed));
    s' := s3;
  }

  lemma LeaveRename(c: Course, s: State, ops: nat, t: Tid, src: Key, dst: Key) returns (s': State)
    requires Live(c, s, ops) && Solo(s, t) && At(s, t, Rename(src, dst), Pc.Unlock(Renamed)) && src != dst
    ensures Live(c, s', ops) && AtRest(s') && s'.disk == s.disk && s'.th.Keys == s.th.Keys
  {
    PlanTwo(Rename(src, dst), 0, Renamed);
    var s1 := CallOn(c, s, ops, t, Next, Disown(src), Unlock2(Renamed));
    var s2 := CallOn(c, s1, ops, t, Next, Disown(dst), Pc.Release(Renamed));
    var s3 := CallOn(c, s2, ops, t, Next, Return(src), Release2(Renamed));
    s' := CallOn(c, s3, ops, t, Next, Return(dst), Done(Renamed));
  }

  lemma Deletes(s: State, t: Tid, k: Key) returns (s1: State, s2: State)
    requires At(s, t, Delete(k), Locked) && k in s.disk
    ensures DataStep(s, t, Next) == Some(s1) && After(s, s1, t, Unindex, s.disk - {k}, s.index)
    ensures DataStep(s1, t, Next) == Some(s2)
    ensures After(s1, s2, t, Pc.Unlock(Deleted), s.disk - {k}, s.index - {k})
  {
    s1 := DataStep(s, t, Next).value;
    s2 := DataStep(s1, t, Next).value;
  }

  lemma Deletion(c: Course, s: State, ops: nat, t: Tid, k: Key) returns (s': State)
    requires Live(c, s, ops) && ops + 1 < COUNT_LIMIT && AtRest(s) && t !in s.th && k in s.disk
    ensures Live(c, s', ops + 1) && AtRest(s') && s'.disk == s.disk - {k} && s'.index == s.index - {k}
    ensures s'.th.Keys == s.th.Keys + {t}
  {
    var s1 := EnterAlone(c, s, ops, t, Delete(k));
    var s2, s3 := Deletes(s1, t, k);
    WorkOn(c, s1, ops + 1, t, Next, s2, Unindex);
    WorkOn(c, s2, ops + 1, t, Next, s3, Pc.Unlock(Deleted));
    s' := LeaveAlone(c, s3, ops + 1, t, Delete(k), Deleted);
  }

  lemma Misses(s: State, t: Tid, k: Key)
    requires At(s, t, Stream(k), Locked) && k !in s.disk
    ensures DataStep(s, t, Next).Some?
    ensures After(s, DataStep(s, t, Next).value, t, Pc.Unlock(NotFound), s.disk, s.index)
  {
  }

  lemma EmptyHanded(c: Course, s: State, ops: nat, t: Tid, k: Key) returns (s': State)
    requires Live(c, s, ops) && ops + 1 < COUNT_LIMIT && AtRest(s) && t !in s.th && k !in s.disk
    ensures Live(c, s', ops + 1) && AtRest(s') && At(s', t, Stream(k), Done(NotFound))
  {
    var s1 := EnterAlone(c, s, ops, t, Stream(k));
    Misses(s1, t, k);
    var s2 := DataStep(s1, t, Next).value;
    WorkOn(c, s1, ops + 1, t, Next, s2, Pc.Unlock(NotFound));
    s' := LeaveAlone(c, s2, ops + 1, t, Stream(k), NotFound);
  }

  // ----- three more whole operations

  lemma EmptyUpload(c: Course, s: State, ops: nat, t: Tid, k: Key) returns (s': State)
    requires Live(c, s, ops) && ops + 1 < COUNT_LIMIT && AtRest(s) && t !in s.th
    ensures Live(c, s', ops + 1) && AtRest(s') && s'.disk == s.disk[k := []]
    ensures s'.th.Keys == s.th.Keys + {t}
  {
    var s1 := EnterAlone(c, s, ops, t, Save(k, 0));
    var s2 := Truncate(c, s1, ops + 1, t, k, 0);
    var s3 := Commit(c, s2, ops + 1, t, k);
    s' := LeaveAlone(c, s3, ops + 1, t, Save(k, 0), Saved([]));
  }

  lemma PutRemoved(files: map<Key, Bytes>, k: Key)
    ensures files[k := []] - {k} == files - {k}
  {
  }

  lemma BrokenUpload(c: Course, s: State, ops: nat, t: Tid, k: Key) returns (s': State)
    requires Live(c, s, ops) && ops + 1 < COUNT_LIMIT && AtRest(s) && t !in s.th
    ensures Live(c, s', ops + 1) && AtRest(s') && s'.disk == s.disk - {k} && s'.index == s.index
    ensures s'.th.Keys == s.th.Keys + {t}
  {
    var s1 := EnterAlone(c, s, ops, t, Save(k, 1));
    var s2 := Truncate(c, s1, ops + 1, t, k, 1);
    var s3 := Break(c, s2, ops + 1, t, k);
    PutRemoved(s.disk, k);
    s' := LeaveAlone(c, s3, ops + 1, t, Save(k, 1), SaveFailed);
  }

  lemma ShortDownload(c: Course, s: State, ops: nat, t: Tid, k: Key) returns (s': State)
    requires Live(c, s, ops) && ops + 1 < COUNT_LIMIT && AtRest(s) && t !in s.th
    requires k in s.disk && |s.disk[k]| < TRANSFER_BUFFER_SIZE
    ensures Live(c, s', ops + 1) && AtRest(s') && At(s', t, Stream(k), Done(Sent(s.disk[k])))
  {
    var s1 := EnterAlone(c, s, ops, t, Stream(k));
    var s2 := Open(c, s1, ops + 1, t, k);
    var s3 := Send(c, s2, ops + 1, t, k);
    s' := LeaveAlone(c, s3, ops + 1, t, Stream(k), Sent(s.disk[k]));
  }

  // ----- what can happen

  /** One download, and for ever after an entry in the lock map though nothing runs. */
  lemma EntryLeft(k: Key, b: byte)
    ensures exists choices, s ::
      Reaches(map[k := [b]], choices, s) && AtRest(s) && k in s.locks.table
  {
    var disk := map[k := [b]];
    var c := Course(disk, Init(disk));
    LiveInit(disk);
    var s := ShortDownload(c, Init(disk), 0, 0, k);
    var choices, i: nat :| Passes(disk, choices, i, Init(disk), s);
    LockMapAtRest(disk, choices, s, k);
    assert At(s, 0, Stream(k), Done(Sent([b])));
    assert s.th[0].pc.out.Leaks() && k in s.th[0].op.Keys();
  }

  /** An upload that breaks off over an existing file: the file is gone, its entry is not. */
  lemma EntryStale(k: Key, b: byte)
    ensures exists choices, s ::
      && Reaches(map[k := [b]], choices, s) && AtRest(s) && k !in s.disk && k in s.index
      && Replay(Store(map[k := [b]], map[]), s.hist).Some?
      && LeftStale(Store(map[k := [b]], map[]), s.hist, k)
  {
    var disk := map[k := [b]];
    var c := Course(disk, Init(disk));
    LiveInit(disk);
    var s := BrokenUpload(c, Init(disk), 0, 0, k);
    var choices, i: nat :| Passes(disk, choices, i, Init(disk), s);
    ReachesInv(disk, choices, s);
    RestingUnheld(s, k);
    IndexAgrees(disk, choices, s, k);
  }

  /** A download that came to `pc` in a run in which its size was read at the start and in `m`. */
  ghost predicate Announces(disk: map<Key, Bytes>, choices: seq<Choice>, i: nat, m: State, s: State, t: Tid,
                            k: Key, size: nat, pc: Pc)
  {
    && Passes(disk, choices, i, m, s) && t !in m.th && At(s, t, Stream(k), pc)
    && SizeRead(Init(disk), m, k) == Some(size)
  }

  /** The size of a download is read, the file is uploaded anew, the download sends the new file:
      one byte announced, none sent. */
  lemma LengthsDiffer(k: Key, b: byte)
    ensures exists choices, i: nat, m, s, t ::
      Announces(map[k := [b]], choices, i, m, s, t, k, 1, Done(Sent([])))
  {
    var disk := map[k := [b]];
    var c := Course(disk, Init(disk));
    LiveInit(disk);
    var s1 := EmptyUpload(c, Init(disk), 0, 0, k);
    var s := ShortDownload(c, s1, 1, 1, k);
    var choices, i: nat :| Passes(disk, choices, i, Init(disk), s);
    assert Announces(disk, choices, i, Init(disk), s, 1, k, 1, Done(Sent([])));
  }

  /** A rename has moved an empty file onto a stale key when the size is read: one byte announced
      and none sent, though nothing happens in between but the rename's own index update. */
  lemma StaleRename(j: Key, k: Key, b: byte)
    requires j != k
    ensures exists choices, i: nat, m, s, t ::
      Announces(map[j := [], k := [b]], choices, i, m, s, t, k, 1, Done(Sent([]))) && Relinking(m, k)
  {
    var disk := map[j := [], k := [b]];
    var c := Course(disk, Init(disk));
    LiveInit(disk);
    var m := MovedOntoStale(c, Init(disk), j, k);
    var d := Mark(c, m, 2);
    var s := FinishAndDownload(d, m, 2, j, k);
    var choices, i: nat :| Passes(disk, choices, i, m, s);
    assert m.th[1].op.dst == k;
    assert Announces(disk, choices, i, m, s, 2, k, 1, Done(Sent([])));
  }

  lemma MovedOntoStale(c: Course, s: State, j: Key, k: Key) returns (m: State)
    requires Live(c, s, 0) && s.th.Keys == {} && j != k && j in s.disk && s.disk[j] == []
    ensures Live(c, m, 2) && Solo(m, 1) && At(m, 1, Rename(j, k), Moved) && m.index == s.index
    ensures k in m.disk && m.disk[k] == [] && 2 !in m.th.Keys
  {
    var s1 := AboutToMove(c, s, j, k);
    m := MoveOver(c, s1, 2, 1, j, k);
  }

  lemma AboutToMove(c: Course, s: State, j: Key, k: Key) returns (m: State)
    requires Live(c, s, 0) && s.th.Keys == {} && j != k && j in s.disk && s.disk[j] == []
    ensures Live(c, m, 2) && Solo(m, 1) && At(m, 1, Rename(j, k), Locked) && m.index == s.index
    ensures j in m.disk && m.disk[j] == [] && k !in m.disk && 2 !in m.th.Keys
  {
    NobodyRests(s);
    var s1 := BrokenUpload(c, s, 0, 0, k);
    m := EnterRename(c, s1, 1, 1, j, k);
  }

  lemma NobodyRests(s: State)
    requires s.th.Keys == {}
    ensures AtRest(s) && 0 !in s.th
  {
    assert forall t :: t in s.th <==> t in s.th.Keys;
  }

  lemma FinishAndDownload(c: Course, s: State, ops: nat, src: Key, dst: Key) returns (s': State)
    requires Live(c, s, ops) && ops < 10 && Solo(s, 1) && At(s, 1, Rename(src, dst), Moved) && src != dst
    requires src in s.index && dst in s.disk && s.disk[dst] == [] && 2 !in s.th
    ensures Live(c, s', ops + 1) && At(s', 2, Stream(dst), Done(Sent([])))
  {
    var s1 := LinkOver(c, s, ops, 1, src, dst);
    var s2 := LeaveRename(c, s1, ops, 1, src, dst);
    s' := ShortDownload(c, s2, ops, 2, dst);
  }

  /** A deletion between the two looks at the index: nothing is announced with status OK, and then
      there is no file. */
  lemma GoneBetween(k: Key, b: byte)
    ensures exists choices, i: nat, m, s, t ::
      Announces(map[k := [b]], choices, i, m, s, t, k, 0, Done(NotFound))
  {
    var disk := map[k := [b]];
    var c := Course(disk, Init(disk));
    LiveInit(disk);
    var m := Deletion(c, Init(disk), 0, 0, k);
    var d := Mark(c, m, 1);
    var s := EmptyHanded(d, m, 1, 1, k);
    var choices, i: nat :| Passes(disk, choices, i, m, s);
    assert Announces(disk, choices, i, m, s, 1, k, 0, Done(NotFound));
  }

  // ----- two downloads of one file

  /** Two downloads of one file, both sending. */
  lemma TwoReaders(k: Key, b: byte) returns (choices: seq<Choice>, s: State, t: Tid, u: Tid)
    ensures Reaches(map[k := [b]], choices, s) && t in s.th && u in s.th && t != u
    ensures s.th[t].op == Stream(k) && s.th[t].pc.Reading? && s.th[u].op == Stream(k) && s.th[u].pc.Reading?
  {
    var disk := map[k := [b]];
    t, u := 0, 1;
    var c, s1 := FirstReader(disk, t, k);
    s := ReadToo(c, s1, 1, t, u, k);
    choices := RunTo(c, s, 2);
  }

  lemma FirstReader(disk: map<Key, Bytes>, t: Tid, k: Key) returns (c: Course, s: State)
    requires k in disk
    ensures c.disk == disk && Live(c, s, 1) && Solo(s, t) && At(s, t, Stream(k), Reading([]))
    ensures s.disk == disk && s.th.Keys == {t}
  {
    c := Course(disk, Init(disk));
    LiveInit(disk);
    var s1 := EnterAlone(c, Init(disk), 0, t, Stream(k));
    s := Open(c, s1, 1, t, k);
  }

  lemma RunTo(c: Course, s: State, ops: nat) returns (choices: seq<Choice>)
    requires Live(c, s, ops)
    ensures Reaches(c.disk, choices, s)
  {
    var cs, i: nat :| Passes(c.disk, cs, i, c.mid, s);
    choices := cs;
  }

  lemma ReadToo(c: Course, s: State, ops: nat, t: Tid, u: Tid, k: Key) returns (s': State)
    requires Live(c, s, ops) && ops + 1 < COUNT_LIMIT && Solo(s, t) && At(s, t, Stream(k), Reading([]))
    requires u !in s.th && k in s.disk
    ensures Live(c, s', ops + 1) && u in s'.th && t in s'.th && s'.th[t] == s.th[t]
    ensures At(s', u, Stream(k), Reading([]))
  {
    Start(c, s, ops, u, Stream(k));
    var s1 := Spawned(s, u, Stream(k));
    var s2 := RefToo(c, s1, ops + 1, u, k);
    var s3 := LockToo(c, s2, ops + 1, t, u, k);
    Opens(s3, u, k);
    s' := DataStep(s3, u, Next).value;
    NoCall(s3.th[u], Next);
    Work(c, s3, ops + 1, u, Next);
  }

  lemma RefToo(c: Course, s: State, ops: nat, t: Tid, k: Key) returns (s': State)
    requires Live(c, s, ops) && At(s, t, Stream(k), Pc.Start)
    ensures Live(c, s', ops) && s' == s.(locks := s'.locks, th := s.th[t := s.th[t].(pc := Wait)])
  {
    LiveInv(c, s, ops);
    var id := FreshId(s.locks.entries.Keys);
    PlanOne(s.th[t].op, id, Refused);
    PlanNeeds(s.th[t], TakeRef(id));
    Granted(s, t, Take(k, id));
    s' := CallGoes(s, t, TakeRef(id), Take(k, id), Wait);
    StepBounded(s, t, TakeRef(id));
    assert s'.th.Keys == s.th.Keys;
    LiveMore(c, s, ops, t, TakeRef(id), s', ops);
  }

  /** Readers and finished operations write nowhere. */
  lemma NoWriter(s: State, t: Tid, u: Tid, k: Key)
    requires Tracks(s) && u in s.th && s.th[u].pc.Wait? && t in s.th && s.th[t].op.Stream?
    requires forall v :: v in s.th && v != t && v != u ==> s.th[v].pc.Done?
    ensures Unheld(s, k)
  {
  }

  lemma LockToo(c: Course, s: State, ops: nat, t: Tid, u: Tid, k: Key) returns (s': State)
    requires Live(c, s, ops) && At(s, u, Stream(k), Wait) && t in s.th && s.th[t].op.Stream?
    requires forall v :: v in s.th && v != t && v != u ==> s.th[v].pc.Done?
    ensures Live(c, s', ops) && s' == s.(locks := s'.locks, th := s.th[u := s.th[u].(pc := Locked)])
  {
    LiveInv(c, s, ops);
    s' := LockNext(s, t, u, k);
    StepBounded(s, u, Next);
    assert s'.th.Keys == s.th.Keys;
    LiveMore(c, s, ops, u, Next, s', ops);
  }

  lemma LockNext(s: State, t: Tid, u: Tid, k: Key) returns (s': State)
    requires Sound(s.locks) && Tracks(s) && At(s, u, Stream(k), Wait) && t in s.th && s.th[t].op.Stream?
    requires forall v :: v in s.th && v != t && v != u ==> s.th[v].pc.Done?
    ensures LockStep(s, u, Next) == Some(s')
    ensures s' == s.(locks := s'.locks, th := s.th[u := s.th[u].(pc := Locked)])
  {
    PlanOne(s.th[u].op, 0, Refused);
    NoWriter(s, t, u, k);
    OwnGranted(s, u, k);
    s' := CallGoes(s, u, Next, Own(k), Locked);
  }
}
