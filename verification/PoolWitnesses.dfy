/** Concrete runs of the pool for what it does not promise. */
module PoolWitnesses {
  import opened Basics
  import opened TaskQueue
  import opened PoolMachine
  import opened PoolInvariant
  import opened PoolTheorems

  lemma {:induction false} RunSnoc(s: Pool, acts: seq<Act>, a: Act)
    requires Run(s, acts).Some? && Step(Run(s, acts).value, a).Some?
    ensures Run(s, acts + [a]) == Step(Run(s, acts).value, a)
    decreases |acts|
  {
    if acts == [] {
      assert Run(Step(s, a).value, [a][1..]) == Step(s, a);
      assert acts + [a] == [a];
    } else {
      RunSnoc(Step(s, acts[0]).value, acts[1..], a);
      assert (acts + [a])[1..] == acts[1..] + [a];
    }
  }

  lemma ReachedFirst(maxSize: nat, count: nat)
    ensures Reached(Init(maxSize, count), maxSize, count)
  {
    assert Run(Init(maxSize, count), []) == Some(Init(maxSize, count));
  }

  lemma Next(s: Pool, maxSize: nat, count: nat, a: Act) returns (p: Pool)
    requires Reached(s, maxSize, count) && Step(s, a).Some?
    ensures Reached(p, maxSize, count) && p == Step(s, a).value
  {
    var acts :| Run(Init(maxSize, count), acts) == Some(s);
    RunSnoc(Init(maxSize, count), acts, a);
    p := Step(s, a).value;
  }

  /** The call of shutdown up to its joins. */
  lemma StopAll(s: Pool, maxSize: nat, count: nat) returns (p: Pool)
    requires Reached(s, maxSize, count) && s.stage.Running?
    requires forall w :: w in s.team ==> !s.team[w].Waiting?
    requires s.calls == map[]
    ensures Reached(p, maxSize, count) && p == s.(stage := Notified, down := true)
  {
    var s1 := Next(s, maxSize, count, SetFlag);
    var s2 := Next(s1, maxSize, count, NotifyAllEmpty);
    p := Next(s2, maxSize, count, NotifyAllFull);
    assert WakeWorkers(s.team) == s.team && WakePushes(s.calls) == s.calls;
  }

  /** A connection that nobody waits for comes into the queue. */
  lemma Enqueue(s: Pool, maxSize: nat, count: nat, x: Sock) returns (p: Pool)
    requires Reached(s, maxSize, count) && !s.down && x !in s.place && s.queue == [] && s.calls == map[]
    requires forall w :: w in s.team ==> !s.team[w].Waiting?
    ensures Reached(p, maxSize, count) && p.queue == [x] && p.calls == map[] && p.team == s.team
    ensures p.count == s.count && p.stage == s.stage && p.down == s.down && p.joined == s.joined
    ensures p.active == s.active && p.lost == s.lost && p.closes == s.closes && p.hand == s.hand
    ensures p.begun == s.begun
  {
    var s1 := Next(s, maxSize, count, Accept(x));
    var s2 := Next(s1, maxSize, count, Push(x));
    Emptied(s2.team, Waiting);
    p := Next(s2, maxSize, count, NotifyEmpty(x, None));
    assert p.calls == map[];
  }

  /** One worker, one connection, an exception: after shutdown the count is 1 and the socket open. */
  lemma CountLeft(maxSize: nat)
    ensures exists s :: Reached(s, maxSize, 1) && s.stage.Joined? && s.active == 1 && s.lost == {0} && s.closes == []
  {
    ReachedFirst(maxSize, 1);
    var s0 := Init(maxSize, 1);
    assert 0 in s0.team;
    var s1 := Enqueue(s0, maxSize, 1, 0);
    var s5 := ServeThrowing(s1, maxSize, 0);
    var s6 := StopAll(s5, maxSize, 1);
    var s7 := JoinOne(s6, maxSize);
  }

  /** The only worker finds the queue empty and returns; shutdown joins it. */
  lemma JoinOne(s: Pool, maxSize: nat) returns (p: Pool)
    requires Reached(s, maxSize, 1) && s.queue == [] && s.stage.Notified? && s.down
    requires 0 in s.team && s.team[0].Popping? && s.joined == 0 && s.count == 1
    ensures Reached(p, maxSize, 1) && p.stage.Joined?
    ensures p.active == s.active && p.lost == s.lost && p.closes == s.closes
  {
    var s1 := Next(s, maxSize, 1, Pop(0));
    p := JoinExited(s1, maxSize);
  }

  lemma JoinExited(s: Pool, maxSize: nat) returns (p: Pool)
    requires Reached(s, maxSize, 1) && s.stage.Notified?
    requires At(s.team, 0, Exited) && s.joined == 0 && s.count == 1
    ensures Reached(p, maxSize, 1) && p.stage.Joined?
    ensures p.active == s.active && p.lost == s.lost && p.closes == s.closes
  {
    var s1 := Next(s, maxSize, 1, Join);
    p := Next(s1, maxSize, 1, Return);
  }

  lemma ServeThrowing(s: Pool, maxSize: nat, x: Sock) returns (p: Pool)
    requires Reached(s, maxSize, 1) && s.queue == [x] && s.calls == map[] && s.stage.Running?
    requires 0 in s.team && s.team[0].Popping? && forall w :: w in s.team ==> w == 0
    ensures Reached(p, maxSize, 1) && p.queue == [] && p.calls == map[] && p.stage.Running?
    ensures p.team.Keys == s.team.Keys && p.team[0].Popping? && p.joined == s.joined && p.count == s.count
    ensures p.active == s.active + 1 && p.lost == s.lost + {x} && p.closes == s.closes
  {
    var s1 := TakeOne(s, maxSize, x);
    var s2 := Next(s1, maxSize, 1, Begin(0));
    p := Next(s2, maxSize, 1, Throw(0));
  }

  lemma TakeOne(s: Pool, maxSize: nat, x: Sock) returns (p: Pool)
    requires Reached(s, maxSize, 1) && s.queue == [x] && s.calls == map[] && s.stage.Running?
    requires 0 in s.team && s.team[0].Popping?
    ensures Reached(p, maxSize, 1) && p.queue == [] && p.calls == map[] && p.stage.Running?
    ensures p.team == s.team[0 := Ready] && 0 in p.hand && p.hand[0] == x
    ensures p.joined == s.joined && p.count == s.count
    ensures p.active == s.active && p.lost == s.lost && p.closes == s.closes
  {
    var s1 := Next(s, maxSize, 1, Pop(0));
    Emptied(s1.calls, Blocked);
    p := Next(s1, maxSize, 1, NotifyFull(0, None));
  }

  /** With no worker an accepted task is never called, though shutdown returns. */
  lemma NeverCalled(maxSize: nat)
    ensures exists s :: Reached(s, maxSize, 0) && s.stage.Joined? && s.queue == [0] && s.begun == []
  {
    ReachedFirst(maxSize, 0);
    var s0 := Init(maxSize, 0);
    var s1 := Enqueue(s0, maxSize, 0, 0);
    var s2 := StopAll(s1, maxSize, 0);
    var s3 := Next(s2, maxSize, 0, Return);
    assert s3.stage.Joined?;
  }
}
