/** The invariant holds in every state of every interleaving. */
module StorePreserved {
  import opened Basics
  import opened AtomicStore
  import opened FileLocks
  import opened StoreMachine
  import opened StoreInvariant
  import opened StoreSteps
  import opened StoreLocking

  // ----- a new operation

  function Spawned(s: State, t: Tid, op: Op): State {
    s.(th := s.th[t := Thread(op, Start, |s.hist|, None)])
  }

  lemma SpawnTracks(s: State, t: Tid, op: Op)
    requires Tracks(s) && t !in s.th
    ensures Tracks(Spawned(s, t, op))
  {
  }

  lemma SpawnHistory(s: State, start: Store, t: Tid, op: Op)
    requires History(s, start) && t !in s.th
    ensures History(Spawned(s, t, op), start)
  {
  }

  lemma SpawnCells(s: State, t: Tid, op: Op)
    requires Tracks(s) && Cells(s) && t !in s.th
    ensures Cells(Spawned(s, t, op))
  {
    var s' := Spawned(s, t, op);
    assert forall k :: CellAt(s', k) == CellAt(s, k);
    assert forall k :: Hold(t, k) !in s.locks.writing;
    assert forall k :: Unheld(s', k) == Unheld(s, k);
  }

  lemma SpawnInv(s: State, start: Store, t: Tid, op: Op)
    requires Inv(s, start) && t !in s.th && WellFormed(op)
    ensures Inv(Spawned(s, t, op), start)
  {
    SpawnTracks(s, t, op);
    SpawnHistory(s, start, t, op);
    SpawnCells(s, t, op);
  }

  // ----- lock steps

  lemma LockHistory(s: State, s': State, start: Store, t: Tid, d: Deed)
    requires History(s, start) && Performs(s, s', t, d)
    requires Decided(s'.th[t].pc) == Decided(s.th[t].pc)
    ensures History(s', start)
  {
  }

  /** A key that `t` alone gains or loses was clean all along. */
  lemma LockUnheld(s: State, s': State, t: Tid, k: Key)
    requires Exclusive(s'.locks) && Tracks(s) && Tracks(s') && t in s.th && t in s'.th
    requires s'.th == s.th[t := s'.th[t]] && s'.th[t].op == s.th[t].op
    requires Hold(t, k) !in s.locks.writing
    requires Unheld(s', k) || Hold(t, k) in s'.locks.writing
    ensures Unheld(s, k)
  {
    forall u ensures Hold(u, k) !in s.locks.writing {
      if u != t {
        assert Hold(u, k) !in s'.locks.writing;
      }
    }
  }

  lemma LockCells(s: State, s': State, t: Tid, d: Deed)
    requires Exclusive(s'.locks) && Tracks(s) && Tracks(s')
    requires Cells(s) && Performs(s, s', t, d)
    requires Plain(s.th[t].pc) && Plain(s'.th[t].pc)
    ensures Cells(s')
  {
    forall k ensures CellAt(s', k) == CellAt(s, k) {}
    forall k | Unheld(s', k) ensures Clean(s'.spec, k, CellAt(s', k)) {
      if Hold(t, k) in s.locks.writing {
        assert CellOk(s.th[t], s.spec, k, CellAt(s, k));
      } else {
        LockUnheld(s, s', t, k);
      }
    }
    forall u, k | u in s'.th && Hold(u, k) in s'.locks.writing
      ensures CellOk(s'.th[u], s'.spec, k, CellAt(s', k))
    {
      if u == t && Hold(t, k) !in s.locks.writing {
        LockUnheld(s, s', t, k);
      } else {
        assert Hold(u, k) in s.locks.writing;
        assert CellOk(s.th[u], s.spec, k, CellAt(s, k));
      }
    }
  }

  lemma LockInv(s: State, start: Store, t: Tid, a: Action)
    requires Inv(s, start) && t in s.th && LockStep(s, t, a).Some?
    requires Bounded(s.locks) && Bounded(LockStep(s, t, a).value.locks)
    ensures Inv(LockStep(s, t, a).value, start)
  {
    var s' := LockStep(s, t, a).value;
    var (d, pc) := Plan(s.th[t].op, s.th[t].pc, a).value;
    PlanOk(s.th[t], a);
    assert Performs(s, s', t, d);
    DeedTracks(s, s', t, d);
    DeedLocks(s.locks, t, s.th[t].op, d);
    LockHistory(s, s', start, t, d);
    Exclusion(s'.locks);
    LockCells(s, s', t, d);
  }

  // ----- data steps

  lemma LocalFromInv(s: State, start: Store, t: Tid)
    requires Inv(s, start) && t in s.th
    ensures Local(s, t)
  {
    Exclusion(s.locks);
    forall k | k in HeldKeys(s.th[t]) ensures CellOk(s.th[t], s.spec, k, CellAt(s, k)) {
      if s.th[t].op.Stream? {
        assert Hold(t, k) in s.locks.reading;
        assert Unheld(s, k);
      } else {
        assert Hold(t, k) in s.locks.writing;
      }
    }
  }

  lemma DataHistory(s: State, s': State, start: Store, t: Tid)
    requires History(s, start) && DataOk(s, s', t)
    ensures History(s', start)
  {
    if TakesEffect(s, s', t) {
      var e := Event(t, s.th[t].op, Decided(s'.th[t].pc).value);
      ReplaySnoc(start, s.hist, e);
    }
  }

  /** Keys that another operation has locked are out of reach. */
  lemma Apart(s: State, t: Tid, u: Tid, k: Key)
    requires Sound(s.locks) && Tracks(s) && t in s.th && u in s.th && u != t
    requires k in HeldKeys(s.th[u])
    ensures k !in HeldKeys(s.th[t]) || s.th[t].op.Stream?
  {
    Exclusion(s.locks);
    assert Hold(u, k) in s.locks.writing || Hold(u, k) in s.locks.reading;
  }

  lemma OthersLocal(s: State, s': State, t: Tid, u: Tid)
    requires Sound(s.locks) && Tracks(s) && Shapes(s)
    requires DataOk(s, s', t) && u in s.th && u != t && LocalOk(s.th[u], s.spec)
    ensures LocalOk(s.th[u], s'.spec)
  {
    forall k | k in HeldKeys(s.th[u])
      ensures s'.spec.Content(k) == s.spec.Content(k)
    {
      Apart(s, t, u, k);
    }
    if s.th[u].op.Rename? {
      assert s'.spec.Content(s.th[u].op.src) == s.spec.Content(s.th[u].op.src)
          || s.th[u].op.src !in HeldKeys(s.th[u]);
      assert s'.spec.Content(s.th[u].op.dst) == s.spec.Content(s.th[u].op.dst)
          || s.th[u].op.dst !in HeldKeys(s.th[u]);
    } else {
      assert s'.spec.Content(s.th[u].op.key) == s.spec.Content(s.th[u].op.key)
          || s.th[u].op.key !in HeldKeys(s.th[u]);
    }
  }

  lemma OthersCell(s: State, s': State, t: Tid, u: Tid, k: Key)
    requires Sound(s.locks) && Tracks(s) && Shapes(s)
    requires DataOk(s, s', t) && u in s.th && u != t && Hold(u, k) in s.locks.writing
    requires CellOk(s.th[u], s.spec, k, CellAt(s, k))
    ensures CellOk(s.th[u], s'.spec, k, CellAt(s', k))
  {
    Apart(s, t, u, k);
    if s.th[u].pc.Moved? {
      Apart(s, t, u, s.th[u].op.dst);
    }
  }

  lemma DataTracks(s: State, s': State, t: Tid)
    requires Tracks(s) && DataOk(s, s', t)
    ensures Tracks(s')
  {
  }

  lemma DataCells(s: State, s': State, t: Tid)
    requires Sound(s.locks) && Tracks(s) && Tracks(s') && Shapes(s)
    requires Cells(s) && DataOk(s, s', t)
    ensures Cells(s')
  {
    Exclusion(s.locks);
    forall k | Unheld(s', k) ensures Clean(s'.spec, k, CellAt(s', k)) {
      assert Hold(t, k) !in s.locks.writing;
      assert Unheld(s, k);
    }
    forall u, k | u in s'.th && Hold(u, k) in s'.locks.writing
      ensures CellOk(s'.th[u], s'.spec, k, CellAt(s', k))
    {
      if u != t {
        OthersCell(s, s', t, u, k);
      }
    }
    forall u | u in s'.th ensures LocalOk(s'.th[u], s'.spec) {
      if u != t {
        OthersLocal(s, s', t, u);
      }
    }
  }

  lemma DataInv(s: State, start: Store, t: Tid, a: Action)
    requires Inv(s, start) && t in s.th && DataStep(s, t, a).Some?
    ensures Inv(DataStep(s, t, a).value, start)
  {
    var s' := DataStep(s, t, a).value;
    LocalFromInv(s, start, t);
    DataStepOk(s, t, a);
    DataHistory(s, s', start, t);
    DataTracks(s, s', t);
    DataCells(s, s', t);
  }

  // ----- every step, every run

  lemma StepInv(s: State, start: Store, t: Tid, a: Action)
    requires Inv(s, start) && Step(s, t, a).Some?
    requires Bounded(s.locks) && Bounded(Step(s, t, a).value.locks)
    ensures Inv(Step(s, t, a).value, start)
  {
    if a.Spawn? {
      SpawnInv(s, start, t, a.op);
    } else if LockStep(s, t, a).Some? {
      LockInv(s, start, t, a);
    } else {
      DataInv(s, start, t, a);
    }
  }

  /** One choice of the scheduler: who moves, and how. */
  type Choice = (Tid, Action)

  /** The states of the run that makes `choices` from `s`; `None` when it gets stuck. */
  function Run(s: State, choices: seq<Choice>): Option<State> {
    if choices == [] then Some(s)
    else
      var n := |choices| - 1;
      match Run(s, choices[..n])
      case None => None
      case Some(m) => Step(m, choices[n].0, choices[n].1)
  }

  /** Fewer than 2^32 references on any path are outstanding, at every point of the run. */
  ghost predicate RunBounded(s: State, choices: seq<Choice>) {
    forall i :: 0 <= i <= |choices| && Run(s, choices[..i]).Some? ==>
      Bounded(Run(s, choices[..i]).value.locks)
  }

  lemma InitInv(disk: map<Key, Bytes>)
    ensures Inv(Init(disk), Store(disk, map[]))
  {
  }

  lemma {:induction false} RunInv(disk: map<Key, Bytes>, choices: seq<Choice>)
    requires Run(Init(disk), choices).Some? && RunBounded(Init(disk), choices)
    ensures Inv(Run(Init(disk), choices).value, Store(disk, map[]))
    decreases |choices|
  {
    InitInv(disk);
    if choices != [] {
      var n := |choices| - 1;
      var before := choices[..n];
      assert forall i :: 0 <= i <= n ==> before[..i] == choices[..i];
      assert before[..n] == before && choices[..n + 1] == choices;
      RunInv(disk, before);
      StepInv(Run(Init(disk), before).value, Store(disk, map[]), choices[n].0, choices[n].1);
    }
  }
}
