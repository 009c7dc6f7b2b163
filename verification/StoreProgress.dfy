/** No deadlock: whatever the interleaving so far, every operation can still finish. */
module StoreProgress {
  import opened Basics
  import opened AtomicStore
  import opened FileLocks
  import opened StoreMachine
  import opened StoreInvariant
  import opened StoreSteps
  import opened StoreLocking
  import opened StorePreserved
  import opened StoreTheorems

  /** The operations that leaked a reference on a path, or are unfinished and name it. */
  ghost function Concerned(s: State, k: Key): set<Tid> {
    set t | t in s.th && (k in LeakedKeys(s.th[t]) || (!s.th[t].pc.Done? && k in s.th[t].op.Keys()))
  }

  /** On no path can the count overflow: those references are fewer than 2^32. */
  ghost predicate Room(s: State) {
    forall k :: |Concerned(s, k)| < COUNT_LIMIT
  }

  lemma OutstandingConcerned(s: State, k: Key)
    requires Balanced(s.locks) && Tracks(s) && Shapes(s)
    ensures Outstanding(s.locks, k) <= Concerned(s, k)
  {
    forall t | t in Outstanding(s.locks, k)
      ensures t in Concerned(s, k)
    {
      assert Hold(t, k) in s.locks.refs || Hold(t, k) in s.locks.leaked;
      assert t in s.th && (k in RefKeys(s.th[t]) || k in LeakedKeys(s.th[t]));
    }
  }

  lemma RoomBounded(s: State)
    requires Balanced(s.locks) && Tracks(s) && Shapes(s) && Room(s)
    ensures Bounded(s.locks)
  {
    forall k ensures |Outstanding(s.locks, k)| < COUNT_LIMIT {
      OutstandingConcerned(s, k);
      SubsetSize(Outstanding(s.locks, k), Concerned(s, k));
    }
  }

  /** An unfinished operation that moves concerns no path it did not name. */
  lemma RoomKept(s: State, s': State, t: Tid)
    requires Room(s) && t in s.th && t in s'.th && !s.th[t].pc.Done?
    requires s'.th == s.th[t := s'.th[t]] && s'.th[t].op == s.th[t].op
    ensures Room(s')
  {
    forall k ensures |Concerned(s', k)| < COUNT_LIMIT {
      SubsetSize(Concerned(s', k), Concerned(s, k));
    }
  }

  lemma {:induction false} SubsetSize<T>(a: set<T>, b: set<T>)
    requires a <= b
    ensures |a| <= |b|
  {
    if a != {} {
      var x :| x in a;
      SubsetSize(a - {x}, b - {x});
    }
  }

  /** An address that no LockEntry has. */
  lemma {:induction false} FreshId(ids: set<Id>) returns (id: Id)
    ensures forall i :: i in ids ==> i < id
  {
    if ids == {} {
      id := 0;
    } else {
      var i :| i in ids;
      var j := FreshId(ids - {i});
      id := if i < j then j else i + 1;
      assert forall x :: x in ids ==> x in ids - {i} || x == i;
    }
  }

  // ----- what the lock manager grants

  /** What a call needs of the keys its operation refers to and holds. */
  predicate Needs(th: Thread, d: Deed) {
    match d
    case Take(k, _) => k !in RefKeys(th) && k !in LeakedKeys(th)
    case Own(k) => k in RefKeys(th) && k !in HeldKeys(th)
    case Disown(k) => k in RefKeys(th) && k in HeldKeys(th)
    case Return(k) => k in RefKeys(th) && k !in HeldKeys(th)
    case Forget => th.op.Keys() <= RefKeys(th) && HeldKeys(th) == {}
  }

  lemma PlanNeeds(th: Thread, a: Action)
    requires Shaped(th) && Plan(th.op, th.pc, a).Some?
    ensures Needs(th, Plan(th.op, th.pc, a).value.0)
  {
  }

  lemma FreeEntry(s: State, t: Tid, k: Key)
    requires Sound(s.locks) && Tracks(s) && t in s.th && k in RefKeys(s.th[t])
    requires forall u :: u in s.th ==> k !in HeldKeys(s.th[u])
    ensures CanRead(s.locks, Hold(t, k)) && CanWrite(s.locks, Hold(t, k))
  {
    assert Hold(t, k) in s.locks.refs;
    assert forall u :: Hold(u, k) !in s.locks.writing && Hold(u, k) !in s.locks.reading;
  }

  lemma GrantedForget(s: State, t: Tid)
    requires Sound(s.locks) && Tracks(s) && t in s.th && Needs(s.th[t], Forget)
    ensures Perform(s.locks, t, s.th[t].op, Forget).Some?
  {
    forall k | k in s.th[t].op.Keys()
      ensures Hold(t, k) in s.locks.refs
      ensures Hold(t, k) !in s.locks.writing && Hold(t, k) !in s.locks.reading
    {
    }
  }

  /** A call whose needs are met goes through; only a lock can make it wait. */
  lemma Granted(s: State, t: Tid, d: Deed)
    requires Sound(s.locks) && Tracks(s) && t in s.th && Needs(s.th[t], d)
    requires d.Take? ==> d.id !in s.locks.entries
    requires d.Own? ==> forall u :: u in s.th ==> d.k !in HeldKeys(s.th[u])
    ensures Perform(s.locks, t, s.th[t].op, d).Some?
  {
    var op := s.th[t].op;
    match d
    case Take(k, id) =>
      assert Hold(t, k) !in s.locks.refs && Hold(t, k) !in s.locks.leaked;
    case Own(k) => FreeEntry(s, t, k);
    case Disown(k) =>
      assert Hold(t, k) in s.locks.refs;
      assert Hold(t, k) in s.locks.writing || Hold(t, k) in s.locks.reading;
    case Return(k) =>
      assert Hold(t, k) in s.locks.refs;
      assert Hold(t, k) !in s.locks.writing && Hold(t, k) !in s.locks.reading;
    case Forget => GrantedForget(s, t);
  }

  // ----- an operation that can go on alone

  predicate Waiting(pc: Pc) {
    pc.Start? || pc.SecondRef? || pc.Wait? || pc.HoldOne?
  }

  /** Nobody else stands in the way of `t`. */
  ghost predicate Free(s: State, t: Tid) {
    && t in s.th
    && (Waiting(s.th[t].pc) ==>
          forall u, k :: u in s.th && u != t && k in s.th[t].op.Keys() ==> k !in HeldKeys(s.th[u]))
  }

  /** Bytes the operation may still have to move in all. */
  function Work(s: State, op: Op): nat {
    match op
    case Save(_, size) => size
    case Stream(k) => |ContentOf(s, k)|
    case _ => 0
  }

  /** Steps to the end when the network delivers and `work` bytes are to be moved. */
  function Rank(pc: Pc, work: nat): nat {
    match pc
    case Done(_) => 0
    case BailEnd(_) => 1
    case Bail2(_) => 2
    case Bail(_) => 3
    case Release2(_) => 1
    case Release(_) => 2
    case Unlock2(_) => 3
    case Unlock(_) => 4
    case Relink(_) => 5
    case Sized(_) => 6
    case Moved => 7
    case Move => 8
    case Unindex => 5
    case Broken(_) => 5
    case Writing(buf) => if |buf| <= work then 5 + work - |buf| else 5
    case Reading(sent) => if |sent| <= work then 5 + work - |sent| else 5
    case Locked => 9 + work
    case HoldOne(_) => 10 + work
    case Wait => 11 + work
    case SecondRef => 12 + work
    case Start => 13 + work
  }

  ghost function RankOf(s: State, t: Tid): nat
    requires t in s.th
  {
    Rank(s.th[t].pc, Work(s, s.th[t].op))
  }

  function Zeros(n: nat): (z: Bytes)
    ensures |z| == n
  {
    seq(n, i => 0)
  }

  /** No network failure, no exception, no new operation. */
  predicate Benign(a: Action) {
    a.TakeRef? || a.TryFirst? || a.BackOff? || a.Receive? || a.Next?
  }

  /** Only `t` has moved, and it is closer to its end. */
  ghost predicate Advances(s: State, s': State, t: Tid) {
    && t in s.th && t in s'.th
    && s'.th == s.th[t := s'.th[t]] && s'.th[t].op == s.th[t].op
    && RankOf(s', t) < RankOf(s, t)
    && (Waiting(s'.th[t].pc) ==> Waiting(s.th[t].pc))
  }

  lemma PlanRank(th: Thread, a: Action, work: nat)
    requires Shaped(th) && !a.BackOff? && Plan(th.op, th.pc, a).Some?
    ensures var pc := Plan(th.op, th.pc, a).value.1;
            Rank(pc, work) < Rank(th.pc, work) && (Waiting(pc) ==> Waiting(th.pc))
  {
  }

  /** The call an operation plans next while nobody blocks it. */
  lemma NextCall(th: Thread, id: Id) returns (a: Action)
    requires Shaped(th) && Plain(th.pc) && !th.pc.Locked? && !th.pc.Done?
    ensures Benign(a) && !a.BackOff? && Plan(th.op, th.pc, a).Some?
    ensures var d := Plan(th.op, th.pc, a).value.0;
            && (d.Take? ==> d.id == id)
            && (d.Own? ==> Waiting(th.pc) && d.k in th.op.Keys() && d.k !in HeldKeys(th))
  {
    a := if th.pc.Start? || th.pc.SecondRef? then TakeRef(id)
         else if th.pc.Wait? && th.op.Rename? then TryFirst(th.op.src)
         else Next;
  }

  lemma NotBlocked(s: State, t: Tid, d: Deed)
    requires Free(s, t)
    requires d.Own? ==> Waiting(s.th[t].pc) && d.k in s.th[t].op.Keys() && d.k !in HeldKeys(s.th[t])
    ensures d.Own? ==> forall u :: u in s.th ==> d.k !in HeldKeys(s.th[u])
  {
  }

  lemma CallAdvances(s: State, t: Tid, a: Action)
    requires t in s.th && Shaped(s.th[t]) && !a.BackOff? && LockStep(s, t, a).Some?
    ensures Advances(s, LockStep(s, t, a).value, t)
  {
    PlanRank(s.th[t], a, Work(s, s.th[t].op));
  }

  lemma CallStep(s: State, t: Tid) returns (a: Action)
    requires Sound(s.locks) && Tracks(s) && Free(s, t) && Shaped(s.th[t])
    requires Plain(s.th[t].pc) && !s.th[t].pc.Locked? && !s.th[t].pc.Done?
    ensures Benign(a) && LockStep(s, t, a).Some?
    ensures Advances(s, LockStep(s, t, a).value, t)
  {
    var id := FreshId(s.locks.entries.Keys);
    a := NextCall(s.th[t], id);
    PlanNeeds(s.th[t], a);
    var d := Plan(s.th[t].op, s.th[t].pc, a).value.0;
    NotBlocked(s, t, d);
    Granted(s, t, d);
    CallAdvances(s, t, a);
  }

  lemma SaveWork(s: State, t: Tid) returns (a: Action)
    requires t in s.th && Shaped(s.th[t]) && s.th[t].op.Save?
    requires s.th[t].pc.Locked? || !Plain(s.th[t].pc)
    ensures Benign(a) && !a.TakeRef? && DataStep(s, t, a).Some?
    ensures Advances(s, DataStep(s, t, a).value, t)
  {
    var th := s.th[t];
    a := if th.pc.Writing? && |th.pc.buf| < th.op.size
         then Receive(Zeros(Min(TRANSFER_BUFFER_SIZE, th.op.size - |th.pc.buf|)))
         else Next;
  }

  lemma StreamWork(s: State, t: Tid)
    requires t in s.th && Shaped(s.th[t]) && s.th[t].op.Stream?
    requires s.th[t].pc.Locked? || !Plain(s.th[t].pc)
    requires s.th[t].pc.Reading? ==> |s.th[t].pc.sent| <= |ContentOf(s, s.th[t].op.key)|
    ensures DataStep(s, t, Next).Some?
    ensures Advances(s, DataStep(s, t, Next).value, t)
  {
  }

  lemma DeleteWork(s: State, t: Tid)
    requires t in s.th && Shaped(s.th[t]) && s.th[t].op.Delete?
    requires s.th[t].pc.Locked? || !Plain(s.th[t].pc)
    ensures DataStep(s, t, Next).Some?
    ensures Advances(s, DataStep(s, t, Next).value, t)
  {
  }

  lemma RenameWork(s: State, t: Tid)
    requires t in s.th && Shaped(s.th[t]) && s.th[t].op.Rename?
    requires s.th[t].pc.Locked? || !Plain(s.th[t].pc)
    ensures DataStep(s, t, Next).Some?
    ensures Advances(s, DataStep(s, t, Next).value, t)
  {
  }

  lemma WorkingStep(s: State, t: Tid) returns (a: Action)
    requires Local(s, t)
    requires s.th[t].pc.Locked? || !Plain(s.th[t].pc)
    ensures Benign(a) && !a.TakeRef? && DataStep(s, t, a).Some?
    ensures Advances(s, DataStep(s, t, a).value, t)
  {
    match s.th[t].op
    case Save(_, _) => a := SaveWork(s, t);
    case Stream(k) =>
      assert s.th[t].pc.Reading? ==> CellOk(s.th[t], s.spec, k, CellAt(s, k));
      StreamWork(s, t);
      a := Next;
    case Delete(_) =>
      DeleteWork(s, t);
      a := Next;
    case Rename(_, _) =>
      RenameWork(s, t);
      a := Next;
  }

  lemma NoCall(th: Thread, a: Action)
    requires th.pc.Locked? || !Plain(th.pc)
    ensures Plan(th.op, th.pc, a).None?
  {
  }

  lemma StaysFree(s: State, s': State, t: Tid)
    requires Free(s, t) && Advances(s, s', t)
    ensures Free(s', t) && s'.th.Keys == s.th.Keys
  {
  }

  lemma FreeStep(s: State, start: Store, t: Tid) returns (a: Action)
    requires Inv(s, start) && Free(s, t) && !s.th[t].pc.Done?
    ensures Benign(a) && Step(s, t, a).Some?
    ensures Advances(s, Step(s, t, a).value, t)
  {
    if Plain(s.th[t].pc) && !s.th[t].pc.Locked? {
      a := CallStep(s, t);
    } else {
      LocalFromInv(s, start, t);
      a := WorkingStep(s, t);
      NoCall(s.th[t], a);
    }
  }

  // ----- runs

  lemma {:induction false} RunConcat(s: State, a: seq<Choice>, b: seq<Choice>)
    requires Run(s, a).Some?
    ensures Run(s, a + b) == Run(Run(s, a).value, b)
    decreases |b|
  {
    if b == [] {
      assert a + b == a;
    } else {
      var n := |b| - 1;
      RunConcat(s, a, b[..n]);
      assert (a + b)[..|a + b| - 1] == a + b[..n];
    }
  }

  ghost predicate AllBenign(choices: seq<Choice>) {
    forall i :: 0 <= i < |choices| ==> Benign(choices[i].1)
  }

  lemma RunOne(s: State, c: Choice)
    requires Step(s, c.0, c.1).Some?
    ensures Run(s, [c]) == Step(s, c.0, c.1)
  {
    assert [c][..0] == [];
  }

  /** A call lets at most the calling operation owe a path, and only one it takes. */
  lemma PerformOwed(l: Locks, t: Tid, op: Op, d: Deed, k: Key)
    requires Perform(l, t, op, d).Some?
    ensures var owing := Outstanding(Perform(l, t, op, d).value, k);
            owing <= Outstanding(l, k) + if d.Take? && d.k == k then {t} else {}
  {
  }

  lemma PlanTakes(th: Thread, a: Action)
    requires Plan(th.op, th.pc, a).Some?
    ensures !th.pc.Done?
    ensures var d := Plan(th.op, th.pc, a).value.0; d.Take? ==> d.k in th.op.Keys()
  {
  }

  lemma StepBounded(s: State, t: Tid, a: Action)
    requires Tracks(s) && Shapes(s) && Balanced(s.locks) && Room(s) && t in s.th && LockStep(s, t, a).Some?
    ensures Bounded(LockStep(s, t, a).value.locks)
  {
    var l := LockStep(s, t, a).value.locks;
    PlanTakes(s.th[t], a);
    forall k ensures |Outstanding(l, k)| < COUNT_LIMIT {
      PerformOwed(s.locks, t, s.th[t].op, Plan(s.th[t].op, s.th[t].pc, a).value.0, k);
      OutstandingConcerned(s, k);
      SubsetSize(Outstanding(l, k), Concerned(s, k));
    }
  }

  lemma KeepsInv(s: State, start: Store, t: Tid, a: Action)
    requires Inv(s, start) && Room(s) && Step(s, t, a).Some? && !a.Spawn?
    ensures Inv(Step(s, t, a).value, start)
  {
    RoomBounded(s);
    if LockStep(s, t, a).Some? {
      StepBounded(s, t, a);
    } else {
      LocalFromInv(s, start, t);
      DataStepOk(s, t, a);
    }
    StepInv(s, start, t, a);
  }

  lemma Chain(s: State, a: seq<Choice>, m: State, b: seq<Choice>)
    requires Run(s, a) == Some(m) && AllBenign(a) && AllBenign(b)
    ensures Run(s, a + b) == Run(m, b) && AllBenign(a + b)
  {
    RunConcat(s, a, b);
  }

  lemma FreeStepInv(s: State, start: Store, t: Tid) returns (a: Action, m: State)
    requires Inv(s, start) && Room(s) && Free(s, t) && !s.th[t].pc.Done?
    ensures Benign(a) && Step(s, t, a) == Some(m) && Run(s, [(t, a)]) == Some(m)
    ensures Inv(m, start) && Room(m) && Free(m, t) && Advances(s, m, t)
  {
    a := FreeStep(s, start, t);
    m := Step(s, t, a).value;
    StaysFree(s, m, t);
    RoomKept(s, m, t);
    KeepsInv(s, start, t, a);
    RunOne(s, (t, a));
  }

  lemma OneMore(s: State, a: Action, m: State, rest: seq<Choice>, last: State, t: Tid)
    requires Benign(a) && Run(s, [(t, a)]) == Some(m) && Run(m, rest) == Some(last) && AllBenign(rest)
    requires t in m.th && t in last.th && m.th == s.th[t := m.th[t]] && last.th == m.th[t := last.th[t]]
    ensures Run(s, [(t, a)] + rest) == Some(last) && AllBenign([(t, a)] + rest)
    ensures last.th == s.th[t := last.th[t]]
  {
    Chain(s, [(t, a)], m, rest);
  }

  /** An operation that nobody blocks finishes alone. */
  lemma {:induction false} FinishOne(s: State, start: Store, t: Tid)
    returns (choices: seq<Choice>, s': State)
    requires Inv(s, start) && Room(s) && Free(s, t)
    ensures Run(s, choices) == Some(s') && AllBenign(choices)
    ensures Inv(s', start) && Room(s') && t in s'.th && s'.th[t].pc.Done?
    ensures s'.th == s.th[t := s'.th[t]]
    ensures !s.th[t].pc.Done? ==> choices != []
    decreases RankOf(s, t)
  {
    if s.th[t].pc.Done? {
      choices, s' := [], s;
    } else {
      var a, m := FreeStepInv(s, start, t);
      var rest, last := FinishOne(m, start, t);
      OneMore(s, a, m, rest, last, t);
      choices, s' := [(t, a)] + rest, last;
    }
  }

  // ----- everybody finishes

  ghost function Unfinished(s: State): set<Tid> {
    set t | t in s.th && !s.th[t].pc.Done?
  }

  ghost function Trying(s: State): set<Tid> {
    set t | t in s.th && s.th[t].pc.HoldOne?
  }

  lemma Fewer(s: State, s': State, t: Tid)
    requires t in s.th && t in s'.th && s'.th == s.th[t := s'.th[t]]
    ensures !s.th[t].pc.Done? && s'.th[t].pc.Done? ==> |Unfinished(s')| < |Unfinished(s)|
    ensures s.th[t].pc.HoldOne? && s'.th[t].pc.Wait? ==>
      |Unfinished(s')| == |Unfinished(s)| && |Trying(s')| < |Trying(s)|
  {
    if !s.th[t].pc.Done? && s'.th[t].pc.Done? {
      assert t in Unfinished(s);
      assert Unfinished(s') == Unfinished(s) - {t};
    }
    if s.th[t].pc.HoldOne? && s'.th[t].pc.Wait? {
      assert t in Trying(s);
      assert Unfinished(s') == Unfinished(s);
      assert Trying(s') == Trying(s) - {t};
    }
  }

  lemma CanBackOff(s: State, t: Tid)
    requires Sound(s.locks) && Tracks(s) && t in s.th && Shaped(s.th[t]) && s.th[t].pc.HoldOne?
    ensures LockStep(s, t, BackOff).Some? && Step(s, t, BackOff) == LockStep(s, t, BackOff)
    ensures LockStep(s, t, BackOff).value.th == s.th[t := s.th[t].(pc := Wait)]
    ensures LockStep(s, t, BackOff).value.locks.owed == s.locks.owed
  {
    PlanNeeds(s.th[t], BackOff);
    Granted(s, t, Disown(s.th[t].pc.k));
  }

  /** Inside std::lock an operation never blocks while it owns a mutex: it backs off. */
  lemma BackOffOk(s: State, start: Store, t: Tid)
    requires Inv(s, start) && Bounded(s.locks) && t in s.th && s.th[t].pc.HoldOne?
    ensures Step(s, t, BackOff).Some?
    ensures var s' := Step(s, t, BackOff).value;
            Inv(s', start) && s'.th == s.th[t := s.th[t].(pc := Wait)]
  {
    CanBackOff(s, t);
    forall k ensures Outstanding(Step(s, t, BackOff).value.locks, k) == Outstanding(s.locks, k) {}
    StepInv(s, start, t, BackOff);
  }

  lemma NobodyHolds(s: State, t: Tid)
    requires t in s.th
    requires !Waiting(s.th[t].pc) ||
             forall u :: u in s.th && !s.th[u].pc.Done? ==> Waiting(s.th[u].pc) && !s.th[u].pc.HoldOne?
    ensures Free(s, t)
  {
  }

  /** Some operation can be brought closer to its end, by itself or by backing off. */
  lemma Progress(s: State, start: Store) returns (choices: seq<Choice>, s': State)
    requires Inv(s, start) && Room(s) && !AtRest(s)
    ensures Run(s, choices) == Some(s') && AllBenign(choices) && choices != []
    ensures Inv(s', start) && Room(s') && s'.th.Keys == s.th.Keys
    ensures || |Unfinished(s')| < |Unfinished(s)|
            || (|Unfinished(s')| == |Unfinished(s)| && |Trying(s')| < |Trying(s)|)
  {
    var t: Tid;
    if u :| u in s.th && !s.th[u].pc.Done? && !Waiting(s.th[u].pc) {
      t := u;
    } else if u :| u in s.th && s.th[u].pc.HoldOne? {
      RoomBounded(s);
      BackOffOk(s, start, u);
      choices, s' := [(u, BackOff)], Step(s, u, BackOff).value;
      RoomKept(s, s', u);
      RunOne(s, (u, BackOff));
      Fewer(s, s', u);
      return;
    } else {
      t :| t in s.th && !s.th[t].pc.Done?;
    }
    NobodyHolds(s, t);
    choices, s' := FinishOne(s, start, t);
    Fewer(s, s', t);
  }

  lemma {:induction false} FinishAll(s: State, start: Store) returns (choices: seq<Choice>, s': State)
    requires Inv(s, start) && Room(s)
    ensures Run(s, choices) == Some(s') && AllBenign(choices)
    ensures AtRest(s') && s'.th.Keys == s.th.Keys
    decreases |Unfinished(s)|, |Trying(s)|
  {
    if AtRest(s) {
      choices, s' := [], s;
    } else {
      var first, m := Progress(s, start);
      var rest, last := FinishAll(m, start);
      Chain(s, first, m, rest);
      choices, s' := first + rest, last;
    }
  }

  /** Some unfinished operation can always move. */
  lemma NoDeadlock(disk: map<Key, Bytes>, choices: seq<Choice>, s: State)
    requires Reaches(disk, choices, s) && !AtRest(s)
    ensures exists t: Tid, a: Action ::
      t in s.th && !s.th[t].pc.Done? && Benign(a) && Step(s, t, a).Some?
  {
    ReachesInv(disk, choices, s);
    var t: Tid;
    if u :| u in s.th && !s.th[u].pc.Done? && !Waiting(s.th[u].pc) {
      t := u;
    } else if u :| u in s.th && s.th[u].pc.HoldOne? {
      CanBackOff(s, u);
      assert Benign(BackOff) && Step(s, u, BackOff).Some?;
      return;
    } else {
      t :| t in s.th && !s.th[t].pc.Done?;
    }
    NobodyHolds(s, t);
    var a := FreeStep(s, Store(disk, map[]), t);
  }

  /** And everybody can finish, without any failure, while counts have room for it. */
  lemma EveryoneCanFinish(disk: map<Key, Bytes>, choices: seq<Choice>, s: State)
    requires Reaches(disk, choices, s) && Room(s)
    ensures exists more: seq<Choice> ::
      && AllBenign(more) && Run(s, more).Some?
      && AtRest(Run(s, more).value) && Run(s, more).value.th.Keys == s.th.Keys
  {
    ReachesInv(disk, choices, s);
    var more, s' := FinishAll(s, Store(disk, map[]));
  }
}
