/** The monitor's invariant is kept by every step, so it holds over every run. */
module PoolInvariant {
  import opened Basics
  import opened TaskQueue
  import opened PoolMachine

  function Unit(b: bool): nat {
    if b then 1 else 0
  }

  lemma MovedOne<P>(m: map<nat, P>, k: nat, p: P, q: P)
    ensures Num(m[k := p], q) == Num(m, q) - Unit(At(m, k, q)) + Unit(q == p)
  {
    assert Those(m[k := p], q) == Those(m, q) - {k} + if q == p then {k} else {};
  }

  lemma Moved<P>(m: map<nat, P>, k: nat, p: P)
    ensures forall q :: Num(m[k := p], q) == Num(m, q) - Unit(At(m, k, q)) + Unit(q == p)
  {
    forall q
      ensures Num(m[k := p], q) == Num(m, q) - Unit(At(m, k, q)) + Unit(q == p)
    {
      MovedOne(m, k, p, q);
    }
  }

  lemma Removed<P>(m: map<nat, P>, k: nat)
    ensures forall q :: Num(m - {k}, q) == Num(m, q) - Unit(At(m, k, q))
  {
    forall q
      ensures Num(m - {k}, q) == Num(m, q) - Unit(At(m, k, q))
    {
      assert Those(m - {k}, q) == Those(m, q) - {k};
    }
  }

  lemma Appended(q: seq<Sock>, x: Sock)
    requires NoDup(q) && x !in q
    ensures NoDup(q + [x]) && forall y :: y in q + [x] <==> y in q || y == x
  {
  }

  lemma HeadGone(before: seq<Sock>, q: seq<Sock>)
    requires NoDup(before + q) && q != []
    ensures forall y :: y in q[1..] <==> y in q && y != q[0]
  {
    forall i | 0 < i < |q|
      ensures q[i] != q[0]
    {
      assert (before + q)[|before| + i] != (before + q)[|before|];
    }
  }

  ghost predicate Tally(s: Pool) {
    Counter(s) && Stages(s) && Wakeups(s)
  }

  lemma AcceptOffers(s: Pool, x: Sock)
    requires Offers(s) && Fifo(s) && x !in s.place
    ensures Offers(Step(s, Accept(x)).value) && Fifo(Step(s, Accept(x)).value)
  {
  }

  lemma AcceptHands(s: Pool, x: Sock)
    requires Hands(s) && Ledger(s) && x !in s.place
    ensures Hands(Step(s, Accept(x)).value) && Ledger(Step(s, Accept(x)).value)
  {
  }

  lemma AcceptTally(s: Pool, x: Sock)
    requires Offers(s) && Fifo(s) && Tally(s) && x !in s.place
    ensures Tally(Step(s, Accept(x)).value)
  {
    Moved(s.calls, x, Testing);
  }

  lemma PushOffers(s: Pool, x: Sock)
    requires Offers(s) && PushStep(s, x).Some?
    ensures Offers(PushStep(s, x).value)
  {
  }

  lemma PushFifo(s: Pool, x: Sock)
    requires Offers(s) && Fifo(s) && PushStep(s, x).Some?
    ensures Fifo(PushStep(s, x).value)
  {
    assert x !in s.accepted;
    Appended(s.accepted, x);
  }

  lemma PushHands(s: Pool, x: Sock)
    requires Offers(s) && Hands(s) && PushStep(s, x).Some?
    ensures Hands(PushStep(s, x).value)
  {
  }

  lemma PushLedger(s: Pool, x: Sock)
    requires Offers(s) && Ledger(s) && PushStep(s, x).Some?
    ensures Ledger(PushStep(s, x).value)
  {
  }

  lemma PushTally(s: Pool, x: Sock)
    requires Tally(s) && PushStep(s, x).Some?
    ensures Tally(PushStep(s, x).value)
  {
    Moved(s.calls, x, PushStep(s, x).value.calls[x]);
  }

  lemma PopOffers(s: Pool, w: Worker)
    requires Offers(s) && Fifo(s) && PopStep(s, w).Some?
    ensures Offers(PopStep(s, w).value) && Fifo(PopStep(s, w).value)
  {
    if s.queue != [] {
      HeadGone(s.taken, s.queue);
    }
  }

  lemma PopHands(s: Pool, w: Worker)
    requires Hands(s) && PopStep(s, w).Some?
    requires s.queue != [] ==> At(s.place, s.queue[0], Queued)
    ensures Hands(PopStep(s, w).value)
  {
  }

  lemma PopLedger(s: Pool, w: Worker)
    requires Fifo(s) && Ledger(s) && PopStep(s, w).Some?
    ensures Ledger(PopStep(s, w).value)
  {
  }

  lemma PopTally(s: Pool, w: Worker)
    requires Tally(s) && PopStep(s, w).Some?
    ensures Tally(PopStep(s, w).value)
  {
    Moved(s.team, w, PopStep(s, w).value.team[w]);
  }

  lemma NotifyEmptyOffers(s: Pool, x: Sock, v: Option<Worker>)
    requires Offers(s) && Fifo(s) && NotifyEmptyStep(s, x, v).Some?
    ensures Offers(NotifyEmptyStep(s, x, v).value) && Fifo(NotifyEmptyStep(s, x, v).value)
  {
  }

  lemma NotifyEmptyHands(s: Pool, x: Sock, v: Option<Worker>)
    requires Hands(s) && Ledger(s) && NotifyEmptyStep(s, x, v).Some?
    ensures Hands(NotifyEmptyStep(s, x, v).value) && Ledger(NotifyEmptyStep(s, x, v).value)
  {
  }

  lemma NotifyEmptyTally(s: Pool, x: Sock, v: Option<Worker>)
    requires Tally(s) && NotifyEmptyStep(s, x, v).Some?
    ensures Tally(NotifyEmptyStep(s, x, v).value)
  {
    Removed(s.calls, x);
    if v.Some? {
      Moved(s.team, v.value, Woken);
    }
  }

  lemma NotifyFullOffers(s: Pool, w: Worker, y: Option<Sock>)
    requires Offers(s) && Fifo(s) && NotifyFullStep(s, w, y).Some?
    ensures Offers(NotifyFullStep(s, w, y).value) && Fifo(NotifyFullStep(s, w, y).value)
  {
  }

  lemma NotifyFullHands(s: Pool, w: Worker, y: Option<Sock>)
    requires Hands(s) && Ledger(s) && NotifyFullStep(s, w, y).Some?
    ensures Hands(NotifyFullStep(s, w, y).value) && Ledger(NotifyFullStep(s, w, y).value)
  {
  }

  lemma NotifyFullTally(s: Pool, w: Worker, y: Option<Sock>)
    requires Tally(s) && NotifyFullStep(s, w, y).Some?
    ensures Tally(NotifyFullStep(s, w, y).value)
  {
    Moved(s.team, w, Ready);
    if y.Some? {
      Moved(s.calls, y.value, Roused);
    }
  }

  lemma BeginOffers(s: Pool, w: Worker)
    requires Offers(s) && Fifo(s) && Hands(s) && BeginStep(s, w).Some?
    ensures Offers(BeginStep(s, w).value) && Fifo(BeginStep(s, w).value)
  {
  }

  lemma BeginHands(s: Pool, w: Worker)
    requires Hands(s) && Ledger(s) && BeginStep(s, w).Some?
    ensures Hands(BeginStep(s, w).value) && Ledger(BeginStep(s, w).value)
  {
    Appended(s.begun, s.hand[w]);
  }

  lemma BeginTally(s: Pool, w: Worker)
    requires Tally(s) && BeginStep(s, w).Some?
    ensures Tally(BeginStep(s, w).value)
  {
    Moved(s.team, w, Handling);
  }

  lemma CloseOffers(s: Pool, w: Worker)
    requires Offers(s) && Fifo(s) && Hands(s) && CloseStep(s, w).Some?
    ensures Offers(CloseStep(s, w).value) && Fifo(CloseStep(s, w).value)
  {
  }

  lemma CloseHands(s: Pool, w: Worker)
    requires Hands(s) && Ledger(s) && CloseStep(s, w).Some?
    ensures Hands(CloseStep(s, w).value) && Ledger(CloseStep(s, w).value)
  {
    Appended(s.closes, s.hand[w]);
  }

  lemma CloseTally(s: Pool, w: Worker)
    requires Tally(s) && CloseStep(s, w).Some?
    ensures Tally(CloseStep(s, w).value)
  {
    Moved(s.team, w, Ending);
  }

  lemma EndOffers(s: Pool, w: Worker)
    requires Offers(s) && Fifo(s) && EndStep(s, w).Some?
    ensures Offers(EndStep(s, w).value) && Fifo(EndStep(s, w).value)
  {
  }

  lemma EndHands(s: Pool, w: Worker)
    requires Hands(s) && Ledger(s) && EndStep(s, w).Some?
    ensures Hands(EndStep(s, w).value) && Ledger(EndStep(s, w).value)
  {
  }

  lemma EndTally(s: Pool, w: Worker)
    requires Tally(s) && EndStep(s, w).Some?
    ensures Tally(EndStep(s, w).value)
  {
    Moved(s.team, w, Popping);
  }

  lemma ThrowOffers(s: Pool, w: Worker)
    requires Offers(s) && Fifo(s) && Hands(s) && ThrowStep(s, w).Some?
    ensures Offers(ThrowStep(s, w).value) && Fifo(ThrowStep(s, w).value)
  {
  }

  lemma ThrowHands(s: Pool, w: Worker)
    requires Hands(s) && Ledger(s) && ThrowStep(s, w).Some?
    ensures Hands(ThrowStep(s, w).value) && Ledger(ThrowStep(s, w).value)
  {
  }

  lemma ThrowTally(s: Pool, w: Worker)
    requires Tally(s) && ThrowStep(s, w).Some? && s.hand[w] !in s.lost
    ensures Tally(ThrowStep(s, w).value)
  {
    Moved(s.team, w, Popping);
  }

  lemma WokenAll(team: map<Worker, Phase>)
    ensures var t := WakeWorkers(team);
      && Num(t, Waiting) == 0
      && Num(t, Woken) == Num(team, Woken) + Num(team, Waiting)
      && forall q: Phase :: !q.Waiting? && !q.Woken? ==> Num(t, q) == Num(team, q)
  {
    var t := WakeWorkers(team);
    assert Those(t, Woken) == Those(team, Woken) + Those(team, Waiting);
    forall q: Phase | !q.Woken? && !q.Waiting?
      ensures Num(t, q) == Num(team, q)
    {
      assert Those(t, q) == Those(team, q);
    }
    assert Those(t, Waiting) == {};
  }

  lemma RousedAll(calls: map<Sock, Call>)
    ensures var t := WakePushes(calls);
      && Num(t, Blocked) == 0
      && Num(t, Roused) == Num(calls, Roused) + Num(calls, Blocked)
      && forall q: Call :: !q.Blocked? && !q.Roused? ==> Num(t, q) == Num(calls, q)
  {
    var t := WakePushes(calls);
    assert Those(t, Roused) == Those(calls, Roused) + Those(calls, Blocked);
    forall q: Call | !q.Roused? && !q.Blocked?
      ensures Num(t, q) == Num(calls, q)
    {
      assert Those(t, q) == Those(calls, q);
    }
    assert Those(t, Blocked) == {};
  }

  lemma ShutdownOffers(s: Pool, a: Act)
    requires Offers(s) && Fifo(s) && ShutdownStep(s, a).Some?
    ensures Offers(ShutdownStep(s, a).value) && Fifo(ShutdownStep(s, a).value)
  {
  }

  lemma ShutdownHands(s: Pool, a: Act)
    requires Hands(s) && Ledger(s) && ShutdownStep(s, a).Some?
    ensures Hands(ShutdownStep(s, a).value) && Ledger(ShutdownStep(s, a).value)
  {
  }

  lemma ShutdownTally(s: Pool, a: Act)
    requires Hands(s) && Tally(s) && ShutdownStep(s, a).Some?
    ensures Tally(ShutdownStep(s, a).value)
  {
    WokenAll(s.team);
    RousedAll(s.calls);
  }

  lemma SpuriousOffers(s: Pool, a: Act)
    requires Offers(s) && Fifo(s) && (a.PushSpurious? || a.PopSpurious?) && Step(s, a).Some?
    ensures Offers(Step(s, a).value) && Fifo(Step(s, a).value)
  {
  }

  lemma SpuriousHands(s: Pool, a: Act)
    requires Hands(s) && Ledger(s) && (a.PushSpurious? || a.PopSpurious?) && Step(s, a).Some?
    ensures Hands(Step(s, a).value) && Ledger(Step(s, a).value)
  {
  }

  lemma SpuriousTally(s: Pool, a: Act)
    requires Tally(s) && (a.PushSpurious? || a.PopSpurious?) && Step(s, a).Some?
    ensures Tally(Step(s, a).value)
  {
    if a.PopSpurious? {
      Moved(s.team, a.w, Woken);
    } else {
      Moved(s.calls, a.x, Roused);
    }
  }

  lemma DropOffers(s: Pool, x: Sock)
    requires Offers(s) && Step(s, Drop(x)).Some?
    ensures Offers(Step(s, Drop(x)).value)
  {
  }

  lemma DropFifo(s: Pool, x: Sock)
    requires Offers(s) && Fifo(s) && Step(s, Drop(x)).Some?
    ensures Fifo(Step(s, Drop(x)).value)
  {
  }

  lemma DropHands(s: Pool, x: Sock)
    requires Offers(s) && Hands(s) && Step(s, Drop(x)).Some?
    ensures Hands(Step(s, Drop(x)).value)
  {
  }

  lemma DropLedger(s: Pool, x: Sock)
    requires Offers(s) && Ledger(s) && Step(s, Drop(x)).Some?
    ensures Ledger(Step(s, Drop(x)).value)
  {
    Appended(s.closes, x);
  }

  lemma DropTally(s: Pool, x: Sock)
    requires Tally(s) && Step(s, Drop(x)).Some?
    ensures Tally(Step(s, Drop(x)).value)
  {
    Removed(s.calls, x);
  }

  lemma StepInv(s: Pool, a: Act)
    requires Inv(s) && Step(s, a).Some?
    ensures Inv(Step(s, a).value)
  {
    match a
    case Accept(x) => AcceptOffers(s, x); AcceptHands(s, x); AcceptTally(s, x);
    case Push(x) => PushOffers(s, x); PushFifo(s, x); PushHands(s, x); PushLedger(s, x); PushTally(s, x);
    case PushSpurious(_) => SpuriousOffers(s, a); SpuriousHands(s, a); SpuriousTally(s, a);
    case NotifyEmpty(x, v) => NotifyEmptyOffers(s, x, v); NotifyEmptyHands(s, x, v); NotifyEmptyTally(s, x, v);
    case Drop(x) => DropOffers(s, x); DropFifo(s, x); DropHands(s, x); DropLedger(s, x); DropTally(s, x);
    case Pop(w) => PopOffers(s, w); PopHands(s, w); PopLedger(s, w); PopTally(s, w);
    case PopSpurious(_) => SpuriousOffers(s, a); SpuriousHands(s, a); SpuriousTally(s, a);
    case NotifyFull(w, y) => NotifyFullOffers(s, w, y); NotifyFullHands(s, w, y); NotifyFullTally(s, w, y);
    case Begin(w) => BeginOffers(s, w); BeginHands(s, w); BeginTally(s, w);
    case Close(w) => CloseOffers(s, w); CloseHands(s, w); CloseTally(s, w);
    case End(w) => EndOffers(s, w); EndHands(s, w); EndTally(s, w);
    case Throw(w) => ThrowOffers(s, w); ThrowHands(s, w); ThrowTally(s, w);
    case _ => ShutdownOffers(s, a); ShutdownHands(s, a); ShutdownTally(s, a);
  }

  lemma InitInv(maxSize: nat, count: nat)
    ensures Inv(Init(maxSize, count))
  {
    var s := Init(maxSize, count);
    assert Those(s.team, Handling) == {} && Those(s.team, Ending) == {} && Those(s.team, Waiting) == {};
    assert Those(s.calls, Blocked) == {};
  }
}
