/** The steps that take and give back references and locks. */
module StoreLocking {
  import opened Basics
  import opened AtomicStore
  import opened FileLocks
  import opened StoreMachine
  import opened StoreInvariant

  /** The operation has not begun to change its keys, or has finished. */
  predicate Plain(pc: Pc) {
    && !pc.Writing? && !pc.Broken? && !pc.Reading? && !pc.Unindex?
    && !pc.Move? && !pc.Moved? && !pc.Sized? && !pc.Relink?
  }

  /** How a call on the lock manager changes what an operation refers to, holds and leaks. */
  ghost predicate Accounts(th: Thread, th': Thread, d: Deed) {
    match d
    case Take(k, _) =>
      && RefKeys(th') == RefKeys(th) + {k}
      && HeldKeys(th') == HeldKeys(th) && LeakedKeys(th') == LeakedKeys(th)
    case Own(k) =>
      && HeldKeys(th') == HeldKeys(th) + {k}
      && RefKeys(th') == RefKeys(th) && LeakedKeys(th') == LeakedKeys(th)
    case Disown(k) =>
      && HeldKeys(th') == HeldKeys(th) - {k}
      && RefKeys(th') == RefKeys(th) && LeakedKeys(th') == LeakedKeys(th)
    case Return(k) =>
      && RefKeys(th') == RefKeys(th) - {k}
      && HeldKeys(th') == HeldKeys(th) && LeakedKeys(th') == LeakedKeys(th)
    case Forget =>
      && RefKeys(th) == th.op.Keys() && RefKeys(th') == {}
      && LeakedKeys(th) == {} && LeakedKeys(th') == th.op.Keys()
      && HeldKeys(th') == HeldKeys(th)
  }

  /** The program counters keep the books: every planned call accounts for its keys. */
  lemma PlanOk(th: Thread, a: Action)
    requires Shaped(th) && Plan(th.op, th.pc, a).Some?
    ensures var (d, pc) := Plan(th.op, th.pc, a).value;
            var th' := th.(pc := pc);
            && Accounts(th, th', d) && Shaped(th')
            && Decided(pc) == Decided(th.pc) && Plain(th.pc) && Plain(pc)
  {
  }

  ghost predicate Performs(s: State, s': State, t: Tid, d: Deed) {
    && t in s.th && t in s'.th
    && Perform(s.locks, t, s.th[t].op, d) == Some(s'.locks)
    && s' == s.(locks := s'.locks, th := s.th[t := s.th[t].(pc := s'.th[t].pc)])
    && Accounts(s.th[t], s'.th[t], d)
  }

  lemma DeedTracks(s: State, s': State, t: Tid, d: Deed)
    requires Tracks(s) && Performs(s, s', t, d)
    ensures Tracks(s')
  {
    match d
    case Take(k, id) =>
    case Own(k) =>
    case Disown(k) =>
    case Return(k) =>
    case Forget =>
  }

  lemma DeedLocks(l: Locks, t: Tid, op: Op, d: Deed)
    requires Sound(l) && Perform(l, t, op, d).Some?
    requires Bounded(l) && Bounded(Perform(l, t, op, d).value)
    ensures Sound(Perform(l, t, op, d).value)
  {
    match d
    case Take(k, id) => AcquireInv(l, Hold(t, k), id);
    case Own(k) =>
      if op.Stream? {
        LockReadInv(l, Hold(t, k));
      } else {
        LockWriteInv(l, Hold(t, k));
      }
    case Disown(k) => UnlockInv(l, Hold(t, k));
    case Return(k) => ReleaseInv(l, Hold(t, k));
    case Forget =>
      var h, g := Hold(t, op.First()), Hold(t, op.Last());
      LeakInv(l, h);
      if h != g {
        LeakInv(Leak(l, h), g);
      }
  }
}
