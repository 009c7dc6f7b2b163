/**
  One operation's step, seen locally: what it needs of its own keys and what it
  promises about them. The interleaving argument uses only these promises.
*/
module StoreSteps {
  import opened Basics
  import opened AtomicStore
  import opened FileLocks
  import opened StoreMachine
  import opened StoreInvariant

  // ----- steps on disk and index

  /** The invariant as far as operation `t` depends on it. */
  ghost predicate Local(s: State, t: Tid) {
    && t in s.th && Shaped(s.th[t])
    && s.spec.Valid()
    && LocalOk(s.th[t], s.spec)
    && forall k :: k in HeldKeys(s.th[t]) ==> CellOk(s.th[t], s.spec, k, CellAt(s, k))
  }

  /** Nothing happens in the atomic store. */
  ghost predicate Silent(s: State, s': State, t: Tid)
    requires t in s.th && t in s'.th
  {
    && s'.hist == s.hist && s'.spec == s.spec
    && s'.th[t].at == s.th[t].at && Decided(s'.th[t].pc) == Decided(s.th[t].pc)
  }

  /** Exactly one atomic operation happens, and it is the one `t` is executing. */
  ghost predicate TakesEffect(s: State, s': State, t: Tid)
    requires t in s.th && t in s'.th
  {
    && Decided(s.th[t].pc).None? && Decided(s'.th[t].pc).Some?
    && var out := Decided(s'.th[t].pc).value;
    && s'.th[t].at == Some(|s.hist|)
    && s'.hist == s.hist + [Event(t, s.th[t].op, out)]
    && Allowed(s.spec, s.th[t].op, out)
    && s'.spec == Effect(s.spec, s.th[t].op, out)
  }

  /** The keys `t` has not locked look the same before and after. */
  ghost predicate Frame(s: State, s': State, t: Tid)
    requires t in s.th
  {
    forall k :: k !in HeldKeys(s.th[t]) || s.th[t].op.Stream? ==>
      && CellAt(s', k) == CellAt(s, k)
      && s'.spec.Content(k) == s.spec.Content(k)
      && s'.spec.Indexed(k) == s.spec.Indexed(k)
  }

  ghost predicate DataOk(s: State, s': State, t: Tid) {
    && t in s.th && t in s'.th
    && s'.locks == s.locks
    && s'.th == s.th[t := s'.th[t]]
    && s'.th[t].op == s.th[t].op && s'.th[t].born == s.th[t].born
    && HeldKeys(s'.th[t]) == HeldKeys(s.th[t])
    && RefKeys(s'.th[t]) == RefKeys(s.th[t])
    && LeakedKeys(s'.th[t]) == LeakedKeys(s.th[t])
    && Frame(s, s', t)
    && Local(s', t)
    && (Silent(s, s', t) || TakesEffect(s, s', t))
  }

  lemma ThrowOk(s: State, t: Tid)
    requires Local(s, t) && ThrowStep(s, t).Some?
    ensures DataOk(s, ThrowStep(s, t).value, t)
  {
  }

  lemma TruncateOk(s: State, t: Tid, a: Action)
    requires Local(s, t) && s.th[t].op.Save? && s.th[t].pc.Locked? && SaveStep(s, t, a).Some?
    ensures DataOk(s, SaveStep(s, t, a).value, t)
  {
  }

  lemma ReceiveOk(s: State, t: Tid, a: Action)
    requires Local(s, t) && s.th[t].op.Save? && s.th[t].pc.Writing? && !a.Next? && SaveStep(s, t, a).Some?
    ensures DataOk(s, SaveStep(s, t, a).value, t)
  {
  }

  lemma CommitOk(s: State, t: Tid, a: Action)
    requires Local(s, t) && s.th[t].op.Save? && s.th[t].pc.Writing? && a.Next? && SaveStep(s, t, a).Some?
    ensures DataOk(s, SaveStep(s, t, a).value, t)
  {
  }

  lemma RemovePartialOk(s: State, t: Tid, a: Action)
    requires Local(s, t) && s.th[t].op.Save? && s.th[t].pc.Broken? && SaveStep(s, t, a).Some?
    ensures DataOk(s, SaveStep(s, t, a).value, t)
  {
  }

  lemma SaveOk(s: State, t: Tid, a: Action)
    requires Local(s, t) && s.th[t].op.Save? && SaveStep(s, t, a).Some?
    ensures DataOk(s, SaveStep(s, t, a).value, t)
  {
    if s.th[t].pc.Locked? {
      TruncateOk(s, t, a);
    } else if s.th[t].pc.Writing? && !a.Next? {
      ReceiveOk(s, t, a);
    } else if s.th[t].pc.Writing? && a.Next? {
      CommitOk(s, t, a);
    } else {
      RemovePartialOk(s, t, a);
    }
  }

  lemma OpenOk(s: State, t: Tid, a: Action)
    requires Local(s, t) && s.th[t].op.Stream? && s.th[t].pc.Locked? && s.th[t].op.key in s.disk
    requires StreamStep(s, t, a).Some?
    ensures DataOk(s, StreamStep(s, t, a).value, t)
  {
  }

  lemma NotThereOk(s: State, t: Tid, a: Action)
    requires Local(s, t) && s.th[t].op.Stream? && s.th[t].pc.Locked? && s.th[t].op.key !in s.disk
    requires StreamStep(s, t, a).Some?
    ensures DataOk(s, StreamStep(s, t, a).value, t)
  {
  }

  lemma SendOk(s: State, t: Tid, a: Action)
    requires Local(s, t) && s.th[t].op.Stream? && s.th[t].pc.Reading? && a.Next? && StreamStep(s, t, a).Some?
    ensures DataOk(s, StreamStep(s, t, a).value, t)
  {
  }

  lemma SendFailsOk(s: State, t: Tid, a: Action)
    requires Local(s, t) && s.th[t].op.Stream? && s.th[t].pc.Reading? && !a.Next? && StreamStep(s, t, a).Some?
    ensures DataOk(s, StreamStep(s, t, a).value, t)
  {
  }

  lemma StreamOk(s: State, t: Tid, a: Action)
    requires Local(s, t) && s.th[t].op.Stream? && StreamStep(s, t, a).Some?
    ensures DataOk(s, StreamStep(s, t, a).value, t)
  {
    if s.th[t].pc.Locked? && s.th[t].op.key in s.disk {
      OpenOk(s, t, a);
    } else if s.th[t].pc.Locked? {
      NotThereOk(s, t, a);
    } else if s.th[t].pc.Reading? && a.Next? {
      SendOk(s, t, a);
    } else {
      SendFailsOk(s, t, a);
    }
  }

  lemma RemoveOk(s: State, t: Tid, a: Action)
    requires Local(s, t) && s.th[t].op.Delete? && s.th[t].pc.Locked? && s.th[t].op.key in s.disk
    requires DeleteStep(s, t, a).Some?
    ensures DataOk(s, DeleteStep(s, t, a).value, t)
  {
  }

  lemma MissingOk(s: State, t: Tid, a: Action)
    requires Local(s, t) && s.th[t].op.Delete? && s.th[t].pc.Locked? && s.th[t].op.key !in s.disk
    requires DeleteStep(s, t, a).Some?
    ensures DataOk(s, DeleteStep(s, t, a).value, t)
  {
  }

  lemma UnindexOk(s: State, t: Tid, a: Action)
    requires Local(s, t) && s.th[t].op.Delete? && s.th[t].pc.Unindex? && DeleteStep(s, t, a).Some?
    ensures DataOk(s, DeleteStep(s, t, a).value, t)
  {
  }

  lemma DeleteOk(s: State, t: Tid, a: Action)
    requires Local(s, t) && s.th[t].op.Delete? && DeleteStep(s, t, a).Some?
    ensures DataOk(s, DeleteStep(s, t, a).value, t)
  {
    if s.th[t].pc.Locked? && s.th[t].op.key in s.disk {
      RemoveOk(s, t, a);
    } else if s.th[t].pc.Locked? && s.th[t].op.key !in s.disk {
      MissingOk(s, t, a);
    } else {
      UnindexOk(s, t, a);
    }
  }

  lemma ClashOk(s: State, t: Tid, a: Action)
    requires Local(s, t) && s.th[t].op.Rename? && s.th[t].pc.Locked?
    requires (s.th[t].op.src !in s.disk || s.th[t].op.dst in s.disk)
    requires RenameStep(s, t, a).Some?
    ensures DataOk(s, RenameStep(s, t, a).value, t)
  {
  }

  lemma CheckOk(s: State, t: Tid, a: Action)
    requires Local(s, t) && s.th[t].op.Rename? && s.th[t].pc.Locked?
    requires !(s.th[t].op.src !in s.disk || s.th[t].op.dst in s.disk)
    requires RenameStep(s, t, a).Some?
    ensures DataOk(s, RenameStep(s, t, a).value, t)
  {
  }

  lemma MoveOk(s: State, t: Tid, a: Action)
    requires Local(s, t) && s.th[t].op.Rename? && s.th[t].pc.Move? && RenameStep(s, t, a).Some?
    ensures DataOk(s, RenameStep(s, t, a).value, t)
  {
  }

  lemma ReindexOk(s: State, t: Tid, a: Action)
    requires Local(s, t) && s.th[t].op.Rename? && !s.th[t].pc.Locked? && !s.th[t].pc.Move?
    requires RenameStep(s, t, a).Some?
    ensures DataOk(s, RenameStep(s, t, a).value, t)
  {
  }

  lemma RenameOk(s: State, t: Tid, a: Action)
    requires Local(s, t) && s.th[t].op.Rename? && RenameStep(s, t, a).Some?
    ensures DataOk(s, RenameStep(s, t, a).value, t)
  {
    if s.th[t].pc.Locked? && (s.th[t].op.src !in s.disk || s.th[t].op.dst in s.disk) {
      ClashOk(s, t, a);
    } else if s.th[t].pc.Locked? && !(s.th[t].op.src !in s.disk || s.th[t].op.dst in s.disk) {
      CheckOk(s, t, a);
    } else if s.th[t].pc.Move? {
      MoveOk(s, t, a);
    } else {
      ReindexOk(s, t, a);
    }
  }

  lemma DataStepOk(s: State, t: Tid, a: Action)
    requires Local(s, t) && DataStep(s, t, a).Some?
    ensures DataOk(s, DataStep(s, t, a).value, t)
  {
    if a.Throw? {
      ThrowOk(s, t);
    } else {
      match s.th[t].op
      case Save(_, _) => SaveOk(s, t, a);
      case Stream(_) => StreamOk(s, t, a);
      case Delete(_) => DeleteOk(s, t, a);
      case Rename(_, _) => RenameOk(s, t, a);
    }
  }
}
