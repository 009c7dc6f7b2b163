/** What the accept loop, the queue and the workers promise together, over whole runs. */
module PoolTheorems {
  import opened Basics
  import opened TaskQueue
  import opened PoolMachine
  import opened PoolInvariant

  function Run(s: Pool, acts: seq<Act>): Option<Pool>
    decreases |acts|
  {
    if acts == [] then Some(s)
    else
      match Step(s, acts[0])
      case None => None
      case Some(p) => Run(p, acts[1..])
  }

  lemma SameSizes(s: Pool, a: Act)
    requires Step(s, a).Some?
    ensures Step(s, a).value.maxSize == s.maxSize && Step(s, a).value.count == s.count
  {
  }

  lemma {:induction false} RunInv(s: Pool, acts: seq<Act>)
    requires Inv(s) && Run(s, acts).Some?
    ensures Inv(Run(s, acts).value)
    ensures Run(s, acts).value.maxSize == s.maxSize && Run(s, acts).value.count == s.count
    decreases |acts|
  {
    if acts != [] {
      var p := Step(s, acts[0]).value;
      StepInv(s, acts[0]);
      SameSizes(s, acts[0]);
      RunInv(p, acts[1..]);
    }
  }

  ghost predicate Reached(s: Pool, maxSize: nat, count: nat) {
    exists acts :: Run(Init(maxSize, count), acts) == Some(s)
  }

  lemma ReachedInv(s: Pool, maxSize: nat, count: nat)
    requires Reached(s, maxSize, count)
    ensures Inv(s) && s.maxSize == maxSize && s.count == count
  {
    var acts :| Run(Init(maxSize, count), acts) == Some(s);
    InitInv(maxSize, count);
    RunInv(Init(maxSize, count), acts);
  }

  // ----- draining

  lemma DrainInOrder(s: Pool, maxSize: nat, count: nat)
    requires Reached(s, maxSize, count)
    ensures s.accepted == s.taken + s.queue && NoDup(s.accepted)
    ensures maxSize != 0 ==> |s.queue| <= maxSize
  {
    ReachedInv(s, maxSize, count);
  }

  /** Refusals so far, and workers that have returned, came after the flag. */
  ghost predicate LateEnds(s: Pool) {
    && (forall x :: x in s.place && (s.place[x].Rejected? || s.place[x].Dropped?) ==> s.down)
    && (forall w :: w in s.team && s.team[w].Exited? ==> s.down)
  }

  lemma LatePush(s: Pool, x: Sock)
    requires LateEnds(s) && PushStep(s, x).Some?
    ensures LateEnds(PushStep(s, x).value)
  {
  }

  lemma LatePop(s: Pool, w: Worker)
    requires LateEnds(s) && PopStep(s, w).Some?
    ensures LateEnds(PopStep(s, w).value)
  {
  }

  lemma LateDrop(s: Pool, x: Sock)
    requires Offers(s) && LateEnds(s) && Step(s, Drop(x)).Some?
    ensures LateEnds(Step(s, Drop(x)).value)
  {
    assert s.place[x].Rejected?;
  }

  lemma LateSession(s: Pool, a: Act)
    requires LateEnds(s) && Step(s, a).Some? && (a.Begin? || a.Close? || a.End? || a.Throw?)
    ensures LateEnds(Step(s, a).value)
  {
  }

  lemma LateNotify(s: Pool, a: Act)
    requires LateEnds(s) && Step(s, a).Some?
    requires a.Accept? || a.PushSpurious? || a.PopSpurious? || a.NotifyEmpty? || a.NotifyFull?
    ensures LateEnds(Step(s, a).value)
  {
  }

  lemma LateShutdown(s: Pool, a: Act)
    requires LateEnds(s) && ShutdownStep(s, a).Some?
    ensures LateEnds(ShutdownStep(s, a).value)
  {
  }

  lemma LateEndsKept(s: Pool, a: Act)
    requires Inv(s) && LateEnds(s) && Step(s, a).Some?
    ensures LateEnds(Step(s, a).value)
  {
    if a.Push? {
      LatePush(s, a.x);
    } else if a.Pop? {
      LatePop(s, a.w);
    } else if a.Drop? {
      LateDrop(s, a.x);
    } else if a.Begin? || a.Close? || a.End? || a.Throw? {
      LateSession(s, a);
    } else if a.SetFlag? || a.NotifyAllEmpty? || a.NotifyAllFull? || a.Join? || a.Return? {
      LateShutdown(s, a);
    } else {
      LateNotify(s, a);
    }
  }

  lemma {:induction false} LateEndsRun(s: Pool, acts: seq<Act>)
    requires Inv(s) && LateEnds(s) && Run(s, acts).Some?
    ensures LateEnds(Run(s, acts).value)
    decreases |acts|
  {
    if acts != [] {
      LateEndsKept(s, acts[0]);
      StepInv(s, acts[0]);
      LateEndsRun(Step(s, acts[0]).value, acts[1..]);
    }
  }

  /** Before shutdown no connection is turned away and no worker returns: a full queue makes the
      acceptor wait. */
  lemma NobodyTurnedAway(s: Pool, maxSize: nat, count: nat, x: Sock)
    requires Reached(s, maxSize, count) && !s.down && x in s.place
    ensures !s.place[x].Rejected? && !s.place[x].Dropped?
    ensures x in s.calls && x !in s.accepted ==> s.calls[x].Testing? || s.calls[x].Blocked? || s.calls[x].Roused?
    ensures forall w :: w in s.team ==> !s.team[w].Exited?
  {
    var acts :| Run(Init(maxSize, count), acts) == Some(s);
    ReachedInv(s, maxSize, count);
    InitInv(maxSize, count);
    LateEndsRun(Init(maxSize, count), acts);
  }

  lemma {:induction false} OnceEach(q: seq<Sock>, x: Sock)
    requires NoDup(q)
    ensures multiset(q)[x] == Unit(x in q)
  {
    if q != [] {
      var n := |q| - 1;
      assert q == q[..n] + [q[n]];
      OnceEach(q[..n], x);
      assert q[n] !in q[..n];
    }
  }

  lemma SameOnce(p: seq<Sock>, q: seq<Sock>)
    requires NoDup(p) && NoDup(q) && forall x :: x in p <==> x in q
    ensures multiset(p) == multiset(q)
  {
    forall x
      ensures multiset(p)[x] == multiset(q)[x]
    {
      OnceEach(p, x);
      OnceEach(q, x);
    }
  }

  ghost predicate AllExited(s: Pool) {
    forall w: Worker :: w < s.count ==> w in s.team && s.team[w].Exited?
  }

  lemma DrainedOnce(s: Pool, maxSize: nat, count: nat)
    requires Reached(s, maxSize, count) && AllExited(s) && count > 0
    ensures s.queue == [] && multiset(s.begun) == multiset(s.accepted)
    ensures forall x :: multiset(s.begun)[x] == Unit(x in s.accepted)
  {
    ReachedInv(s, maxSize, count);
    assert 0 in s.team;
    assert s.hand.Keys == {};
    SameOnce(s.begun, s.accepted);
    forall x
      ensures multiset(s.begun)[x] == Unit(x in s.accepted)
    {
      OnceEach(s.accepted, x);
    }
  }

  // ----- connections

  /** In how many places a socket is. */
  ghost function Spots(s: Pool, x: Sock): nat {
    Unit(x in s.calls && !s.calls[x].Signalling?) + multiset(s.queue)[x] + Num(s.hand, x)
    + multiset(s.closes)[x] + Unit(x in s.lost)
  }

  lemma InHand(s: Pool, x: Sock)
    requires Hands(s)
    ensures Num(s.hand, x) == Unit(x in s.place && (s.place[x].Picked? || s.place[x].Handled?))
  {
    if x in s.place && (s.place[x].Picked? || s.place[x].Handled?) {
      assert Those(s.hand, x) == {s.place[x].w};
    } else {
      assert Those(s.hand, x) == {};
    }
  }

  lemma OnePlace(s: Pool, maxSize: nat, count: nat, x: Sock)
    requires Reached(s, maxSize, count)
    ensures Spots(s, x) == Unit(x in s.place)
  {
    ReachedInv(s, maxSize, count);
    InHand(s, x);
    OnceEach(s.closes, x);
    assert NoDup(s.queue) by {
      assert forall i :: 0 <= i < |s.queue| ==> s.queue[i] == s.accepted[|s.taken| + i];
    }
    OnceEach(s.queue, x);
  }

  lemma {:induction false} TeamSize(team: map<Worker, Phase>, n: nat)
    requires forall w: Worker :: w in team <==> w < n
    ensures |team.Keys| == n
  {
    if n == 0 {
      assert team.Keys == {};
    } else {
      TeamSize(team - {n - 1}, n - 1);
      assert team.Keys == (team - {n - 1}).Keys + {n - 1};
    }
  }

  lemma ActiveCount(s: Pool, maxSize: nat, count: nat)
    requires Reached(s, maxSize, count)
    ensures s.active == Num(s.team, Handling) + Num(s.team, Ending) + |s.lost|
    ensures s.lost == {} ==> 0 <= s.active <= count
    ensures AllExited(s) ==> s.active == |s.lost|
  {
    ReachedInv(s, maxSize, count);
    TeamSize(s.team, count);
    var busy := Those(s.team, Handling) + Those(s.team, Ending);
    assert Those(s.team, Handling) !! Those(s.team, Ending);
    assert busy <= s.team.Keys;
    Within(busy, s.team.Keys);
    if AllExited(s) {
      assert busy == {};
    }
  }

  lemma Within(a: set<nat>, b: set<nat>)
    requires a <= b
    ensures |a| <= |b|
  {
    assert b == a + (b - a);
  }

  // ----- no lost wakeups

  /** What threads do by themselves: not a new connection, a spurious wakeup or calling shutdown. */
  predicate Own(a: Act) {
    !a.Accept? && !a.PushSpurious? && !a.PopSpurious? && !a.SetFlag?
  }

  ghost predicate Quiet(s: Pool) {
    forall a :: Own(a) ==> Step(s, a).None?
  }

  /** Every connection dealt with: all workers wait for more, or all were joined. */
  ghost predicate Settled(s: Pool) {
    && s.calls == map[] && s.hand == map[] && s.queue == []
    && (forall w :: w in s.team ==> s.team[w] == if s.down then Exited else Waiting)
    && (s.down ==> s.stage.Joined?)
  }

  /** The two coverings, and the broadcasts still to come, in every state a run reaches. */
  lemma NoLostWakeup(s: Pool, maxSize: nat, count: nat)
    requires Reached(s, maxSize, count)
    ensures !s.down && Num(s.team, Waiting) > 0 ==>
      Num(s.calls, Signalling) + Num(s.team, Woken) >= |s.queue|
    ensures !s.down && Num(s.calls, Blocked) > 0 ==>
      0 < maxSize <= |s.queue| + Num(s.team, Notifying) + Num(s.calls, Roused)
    ensures s.down && Num(s.team, Waiting) > 0 ==> s.stage.FlagSet?
    ensures s.down && Num(s.calls, Blocked) > 0 ==> s.stage.FlagSet? || s.stage.HalfNotified?
  {
    ReachedInv(s, maxSize, count);
  }

  lemma Somebody<P>(m: map<nat, P>, p: P) returns (k: nat)
    requires Num(m, p) > 0
    ensures At(m, k, p)
  {
    k :| k in Those(m, p);
  }

  lemma Counted<P>(m: map<nat, P>, p: P, k: nat)
    requires At(m, k, p)
    ensures Num(m, p) > 0
  {
    assert k in Those(m, p);
  }

  lemma WorkerStep(s: Pool, w: Worker) returns (a: Act)
    requires Hands(s) && w in s.team && !s.team[w].Waiting? && !s.team[w].Exited?
    ensures Own(a) && Step(s, a).Some?
  {
    match s.team[w]
    case Popping => a := Pop(w);
    case Woken => a := Pop(w);
    case Notifying =>
      a := NotifyFull(w, None);
      if Num(s.calls, Blocked) > 0 {
        var y := Somebody(s.calls, Blocked);
        a := NotifyFull(w, Some(y));
      }
    case Ready => a := Begin(w);
    case Handling => a := Close(w);
    case Ending => a := End(w);
  }

  lemma PushCallStep(s: Pool, x: Sock) returns (a: Act)
    requires x in s.calls && !s.calls[x].Blocked?
    ensures Own(a) && Step(s, a).Some?
  {
    match s.calls[x]
    case Testing => a := Push(x);
    case Roused => a := Push(x);
    case Refusal => a := Drop(x);
    case Signalling =>
      a := NotifyEmpty(x, None);
      if Num(s.team, Waiting) > 0 {
        var v := Somebody(s.team, Waiting);
        a := NotifyEmpty(x, Some(v));
      }
  }

  lemma QuietParties(s: Pool)
    requires Inv(s) && Quiet(s)
    ensures forall w :: w in s.team ==> s.team[w].Waiting? || s.team[w].Exited?
    ensures forall x :: x in s.calls ==> s.calls[x].Blocked?
    ensures s.down ==> s.stage.Joined? && forall w :: w in s.team ==> s.team[w].Exited?
    ensures s.down ==> s.calls == map[]
  {
    forall w | w in s.team
      ensures s.team[w].Waiting? || s.team[w].Exited?
    {
      if !s.team[w].Waiting? && !s.team[w].Exited? {
        var a := WorkerStep(s, w);
      }
    }
    forall x | x in s.calls
      ensures s.calls[x].Blocked?
    {
      if !s.calls[x].Blocked? {
        var a := PushCallStep(s, x);
      }
    }
    if s.down {
      QuietShutdown(s);
    }
  }

  lemma QuietShutdown(s: Pool)
    requires Inv(s) && Quiet(s) && s.down
    requires forall w :: w in s.team ==> s.team[w].Waiting? || s.team[w].Exited?
    requires forall x :: x in s.calls ==> s.calls[x].Blocked?
    ensures s.stage.Joined? && s.calls == map[]
    ensures forall w :: w in s.team ==> s.team[w].Exited?
  {
    assert Own(NotifyAllEmpty) && Own(NotifyAllFull) && Own(Join) && Own(Return);
    assert Step(s, NotifyAllEmpty).None? && Step(s, NotifyAllFull).None?;
    forall w | w in s.team
      ensures s.team[w].Exited?
    {
      if s.team[w].Waiting? {
        Counted(s.team, Waiting, w);
      }
    }
    forall x | x in s.calls
      ensures false
    {
      Counted(s.calls, Blocked, x);
    }
    assert Step(s, Join).None? && Step(s, Return).None?;
    if s.joined < s.count {
      assert At(s.team, s.joined, Exited);
    }
  }

  /** The monitor gets stuck only where nobody has anything left to do. */
  lemma NotStuck(s: Pool, maxSize: nat, count: nat)
    requires Reached(s, maxSize, count) && count > 0
    ensures Quiet(s) <==> Settled(s)
    ensures Quiet(s) ==> forall x :: x in s.place ==> x in s.closes || x in s.lost
  {
    ReachedInv(s, maxSize, count);
    if Quiet(s) {
      QuietSettled(s);
    }
    if Settled(s) {
      SettledQuiet(s);
    }
  }

  lemma QuietSettled(s: Pool)
    requires Inv(s) && s.count > 0 && Quiet(s)
    ensures Settled(s)
    ensures forall x :: x in s.place ==> x in s.closes || x in s.lost
  {
    QuietParties(s);
    assert 0 in s.team;
    assert s.hand.Keys == {};
    if !s.down {
      Counted(s.team, Waiting, 0);
      Emptied(s.team, Woken);
      Emptied(s.calls, Signalling);
      Emptied(s.team, Notifying);
      Emptied(s.calls, Roused);
      forall x | x in s.calls
        ensures false
      {
        Counted(s.calls, Blocked, x);
      }
      assert s.calls.Keys == {};
    }
  }

  lemma Emptied<P>(m: map<nat, P>, p: P)
    requires forall k :: k in m ==> m[k] != p
    ensures Num(m, p) == 0
  {
    assert Those(m, p) == {};
  }

  lemma SettledQuiet(s: Pool)
    requires Inv(s) && Settled(s)
    ensures Quiet(s)
  {
  }

  // ----- shutdown ends

  function Left(p: Phase): nat {
    match p
    case Notifying => 6
    case Ready => 5
    case Handling => 4
    case Ending => 3
    case Waiting => 3
    case Woken => 2
    case Popping => 2
    case Exited => 0
  }

  function CallLeft(c: Call): nat {
    match c
    case Blocked => 3
    case Testing => 2
    case Roused => 2
    case _ => 1
  }

  function TeamEffort(team: map<Worker, Phase>): nat {
    Left(Notifying) * Num(team, Notifying) + Left(Ready) * Num(team, Ready)
    + Left(Handling) * Num(team, Handling) + Left(Ending) * Num(team, Ending)
    + Left(Waiting) * Num(team, Waiting) + Left(Woken) * Num(team, Woken)
    + Left(Popping) * Num(team, Popping)
  }

  function CallEffort(calls: map<Sock, Call>): nat {
    CallLeft(Blocked) * Num(calls, Blocked) + CallLeft(Testing) * Num(calls, Testing)
    + CallLeft(Roused) * Num(calls, Roused) + CallLeft(Signalling) * Num(calls, Signalling)
    + CallLeft(Refusal) * Num(calls, Refusal)
  }

  function StageEffort(s: Pool): int {
    match s.stage
    case Joined => 0
    case Notified => 1 + s.count - s.joined
    case HalfNotified => 2 + s.count
    case _ => 3 + s.count
  }

  /** The work left once no more connections come in. */
  function Effort(s: Pool): int {
    5 * |s.queue| + TeamEffort(s.team) + CallEffort(s.calls) + StageEffort(s)
  }

  lemma TeamMoved(team: map<Worker, Phase>, w: Worker, p: Phase)
    requires w in team
    ensures TeamEffort(team[w := p]) == TeamEffort(team) - Left(team[w]) + Left(p)
  {
    Moved(team, w, p);
  }

  lemma CallMoved(calls: map<Sock, Call>, x: Sock, c: Call)
    requires x in calls
    ensures CallEffort(calls[x := c]) == CallEffort(calls) - CallLeft(calls[x]) + CallLeft(c)
  {
    Moved(calls, x, c);
  }

  lemma CallRemoved(calls: map<Sock, Call>, x: Sock)
    requires x in calls
    ensures CallEffort(calls - {x}) == CallEffort(calls) - CallLeft(calls[x])
  {
    Removed(calls, x);
  }

  lemma BroadcastDrops(team: map<Worker, Phase>, calls: map<Sock, Call>)
    ensures TeamEffort(WakeWorkers(team)) <= TeamEffort(team)
    ensures CallEffort(WakePushes(calls)) <= CallEffort(calls)
  {
    WokenAll(team);
    RousedAll(calls);
  }

  lemma PushDrops(s: Pool, a: Act)
    requires s.down && (a.Push? || a.PushSpurious? || a.NotifyEmpty? || a.Drop?) && Step(s, a).Some?
    ensures Step(s, a).value.down && Effort(Step(s, a).value) < Effort(s)
  {
    match a
    case Push(x) => CallMoved(s.calls, x, Refusal);
    case PushSpurious(x) => CallMoved(s.calls, x, Roused);
    case NotifyEmpty(x, v) =>
      CallRemoved(s.calls, x);
      if v.Some? {
        TeamMoved(s.team, v.value, Woken);
      }
    case Drop(x) => CallRemoved(s.calls, x);
  }

  lemma PopDrops(s: Pool, a: Act)
    requires s.down && (a.Pop? || a.PopSpurious? || a.NotifyFull?) && Step(s, a).Some?
    ensures Step(s, a).value.down && Effort(Step(s, a).value) < Effort(s)
  {
    match a
    case Pop(w) => TeamMoved(s.team, w, Step(s, a).value.team[w]);
    case PopSpurious(w) => TeamMoved(s.team, w, Woken);
    case NotifyFull(w, y) =>
      TeamMoved(s.team, w, Ready);
      if y.Some? {
        CallMoved(s.calls, y.value, Roused);
      }
  }

  lemma SessionDrops(s: Pool, a: Act)
    requires s.down && (a.Begin? || a.Close? || a.End? || a.Throw?) && Step(s, a).Some?
    ensures Step(s, a).value.down && Effort(Step(s, a).value) < Effort(s)
  {
    TeamMoved(s.team, a.w, Step(s, a).value.team[a.w]);
  }

  lemma StageDrops(s: Pool, a: Act)
    requires s.down && Stages(s) && ShutdownStep(s, a).Some?
    ensures ShutdownStep(s, a).value.down && Effort(ShutdownStep(s, a).value) < Effort(s)
  {
    BroadcastDrops(s.team, s.calls);
  }

  lemma EffortDrops(s: Pool, a: Act)
    requires s.down && Stages(s) && !a.Accept? && Step(s, a).Some?
    ensures Step(s, a).value.down && Effort(Step(s, a).value) < Effort(s)
  {
    match a
    case Push(_) => PushDrops(s, a);
    case PushSpurious(_) => PushDrops(s, a);
    case NotifyEmpty(_, _) => PushDrops(s, a);
    case Drop(_) => PushDrops(s, a);
    case Pop(_) => PopDrops(s, a);
    case PopSpurious(_) => PopDrops(s, a);
    case NotifyFull(_, _) => PopDrops(s, a);
    case Begin(_) => SessionDrops(s, a);
    case Close(_) => SessionDrops(s, a);
    case End(_) => SessionDrops(s, a);
    case Throw(_) => SessionDrops(s, a);
    case _ => StageDrops(s, a);
  }

  /** After shutdown was called no schedule goes on longer than the work left. */
  lemma {:induction false} ShutdownBounded(s: Pool, acts: seq<Act>)
    requires Inv(s) && s.down && Run(s, acts).Some?
    requires forall i :: 0 <= i < |acts| ==> !acts[i].Accept?
    ensures Run(s, acts).value.down && |acts| <= Effort(s)
    ensures |acts| <= Effort(s) - Effort(Run(s, acts).value)
    decreases |acts|
  {
    if acts != [] {
      var p := Step(s, acts[0]).value;
      StepInv(s, acts[0]);
      EffortDrops(s, acts[0]);
      ShutdownBounded(p, acts[1..]);
    }
  }

  ghost predicate Halted(s: Pool) {
    forall a: Act :: !a.Accept? ==> Step(s, a).None?
  }

  lemma JoinedHalted(s: Pool)
    requires Inv(s) && s.stage.Joined? && s.calls == map[]
    ensures Halted(s)
  {
  }

  /** ... and where it cannot go on, every worker has returned and was joined. */
  lemma ShutdownEnds(s: Pool, maxSize: nat, count: nat, acts: seq<Act>)
    requires Reached(s, maxSize, count) && s.down && Run(s, acts).Some?
    requires forall i :: 0 <= i < |acts| ==> !acts[i].Accept?
    ensures |acts| <= Effort(s)
    ensures var p := Run(s, acts).value; Halted(p) <==> p.stage.Joined? && p.calls == map[]
    ensures var p := Run(s, acts).value; p.stage.Joined? ==> AllExited(p)
  {
    ReachedInv(s, maxSize, count);
    ShutdownBounded(s, acts);
    RunInv(s, acts);
    var p := Run(s, acts).value;
    if Halted(p) {
      QuietParties(p);
    }
    if p.stage.Joined? && p.calls == map[] {
      JoinedHalted(p);
    }
  }
}
