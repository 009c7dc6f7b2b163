/**
  Acceptor, bounded queue, worker threads and shutdown as one monitor protocol.

  Every critical section is one step; waiting releases the mutex in that same step; a
  notification is a step of its own, because the code notifies after unlocking. Waiters may
  wake up spuriously. A push call is identified by the socket it offers. The model allows any
  number of push calls at once; the accept loop makes one at a time.
*/
module PoolMachine {
  import opened Basics
  import opened TaskQueue

  type Sock = nat
  type Worker = nat

  /** A push call: about to take the mutex; waiting on not_full; woken; about to notify; refused. */
  datatype Call = Testing | Blocked | Roused | Signalling | Refusal

  predicate Undecided(c: Call) {
    c.Testing? || c.Blocked? || c.Roused?
  }

  /**
    A worker: about to take the mutex; waiting on not_empty; woken; popped and about to notify;
    about to call the task; in the session; socket closed and count still to go down; returned.
  */
  datatype Phase = Popping | Waiting | Woken | Notifying | Ready | Handling | Ending | Exited

  /** Where an accepted socket is: history variable, read only to make new sockets new. */
  datatype Place =
    | Offered | Rejected | Queued | Picked(w: Worker) | Handled(w: Worker)
    | Served | Dropped | Lost

  /** Shutdown: not called; flag set; not_empty notified; not_full notified too; all joined. */
  datatype Stage = Running | FlagSet | HalfNotified | Notified | Joined

  datatype Pool = Pool(
    queue: seq<Sock>,
    maxSize: nat,
    down: bool,
    calls: map<Sock, Call>,
    count: nat,                // workers are numbered from 0
    team: map<Worker, Phase>,
    hand: map<Worker, Sock>,   // the task a worker has popped and not finished
    stage: Stage,
    joined: nat,               // workers joined so far, in order
    active: int,               // active_connections_
    // history
    place: map<Sock, Place>,
    accepted: seq<Sock>,       // tasks in push order
    taken: seq<Sock>,          // tasks in pop order
    begun: seq<Sock>,          // tasks called
    closes: seq<Sock>,         // closesocket calls
    lost: set<Sock>)           // tasks that threw

  function Recruits(count: nat): (team: map<Worker, Phase>)
    ensures forall w: Worker :: w in team <==> w < count
    ensures forall w: Worker :: w < count ==> team[w] == Popping
  {
    if count == 0 then map[] else Recruits(count - 1)[count - 1 := Popping]
  }

  function Init(maxSize: nat, count: nat): Pool {
    Pool([], maxSize, false, map[], count, Recruits(count), map[],
         Running, 0, 0, map[], [], [], [], [], {})
  }

  datatype Act =
    | Accept(x: Sock)          // accept() returns a new socket
    | Push(x: Sock)            // the critical section of push
    | PushSpurious(x: Sock)
    | NotifyEmpty(x: Sock, worker: Option<Worker>)  // not_empty_.notify_one() wakes it
    | Drop(x: Sock)            // closesocket after a refused push
    | Pop(w: Worker)           // the critical section of pop
    | PopSpurious(w: Worker)
    | NotifyFull(w: Worker, push: Option<Sock>)     // not_full_.notify_one() wakes it
    | Begin(w: Worker) | Close(w: Worker) | End(w: Worker)
    | Throw(w: Worker)         // the task throws: no cleanup
    | SetFlag | NotifyAllEmpty | NotifyAllFull | Join | Return

  function PushStep(s: Pool, x: Sock): Option<Pool> {
    if x !in s.calls || !(s.calls[x].Testing? || s.calls[x].Roused?) then None
    else
      match TestPush(|s.queue|, s.maxSize, s.down)
      case Refused => Some(s.(calls := s.calls[x := Refusal], place := s.place[x := Rejected]))
      case Admitted =>
        Some(s.(queue := s.queue + [x], calls := s.calls[x := Signalling],
                place := s.place[x := Queued], accepted := s.accepted + [x]))
      case MustWait => Some(s.(calls := s.calls[x := Blocked]))
  }

  function PopStep(s: Pool, w: Worker): Option<Pool> {
    if w !in s.team || !(s.team[w].Popping? || s.team[w].Woken?) then None
    else
      match TestPop(|s.queue|, s.down)
      case Gets =>
        var x := s.queue[0];
        Some(s.(queue := s.queue[1..], team := s.team[w := Notifying], hand := s.hand[w := x],
                place := s.place[x := Picked(w)], taken := s.taken + [x]))
      case Ends => Some(s.(team := s.team[w := Exited]))
      case MustWaitToo => Some(s.(team := s.team[w := Waiting]))
  }

  predicate At<P(==)>(m: map<nat, P>, k: nat, p: P) {
    k in m && m[k] == p
  }

  function Those<P(==)>(m: map<nat, P>, p: P): set<nat> {
    set k | k in m && m[k] == p
  }

  /** How many are in a phase. */
  function Num<P(==)>(m: map<nat, P>, p: P): nat {
    |Those(m, p)|
  }

  /** notify_one wakes one waiter when there is any. */
  function NotifyEmptyStep(s: Pool, x: Sock, worker: Option<Worker>): Option<Pool> {
    if !At(s.calls, x, Signalling) then None
    else
      var p := s.(calls := s.calls - {x});
      match worker
      case None => if Num(s.team, Waiting) == 0 then Some(p) else None
      case Some(v) => if At(s.team, v, Waiting) then Some(p.(team := p.team[v := Woken])) else None
  }

  function NotifyFullStep(s: Pool, w: Worker, push: Option<Sock>): Option<Pool> {
    if !At(s.team, w, Notifying) then None
    else
      var p := s.(team := s.team[w := Ready]);
      match push
      case None => if Num(s.calls, Blocked) == 0 then Some(p) else None
      case Some(y) =>
        if At(s.calls, y, Blocked) then Some(p.(calls := p.calls[y := Roused])) else None
  }

  // handle_client, seen from outside

  function BeginStep(s: Pool, w: Worker): Option<Pool> {
    if !At(s.team, w, Ready) || w !in s.hand then None
    else
      var x := s.hand[w];
      Some(s.(team := s.team[w := Handling], active := s.active + 1,
              place := s.place[x := Handled(w)], begun := s.begun + [x]))
  }

  function CloseStep(s: Pool, w: Worker): Option<Pool> {
    if !At(s.team, w, Handling) || w !in s.hand then None
    else
      var x := s.hand[w];
      Some(s.(team := s.team[w := Ending], hand := s.hand - {w},
              place := s.place[x := Served], closes := s.closes + [x]))
  }

  function EndStep(s: Pool, w: Worker): Option<Pool> {
    if !At(s.team, w, Ending) then None
    else Some(s.(team := s.team[w := Popping], active := s.active - 1))
  }

  function ThrowStep(s: Pool, w: Worker): Option<Pool> {
    if !At(s.team, w, Handling) || w !in s.hand then None
    else
      var x := s.hand[w];
      Some(s.(team := s.team[w := Popping], hand := s.hand - {w},
              place := s.place[x := Lost], lost := s.lost + {x}))
  }

  function WakeWorkers(team: map<Worker, Phase>): map<Worker, Phase> {
    map w | w in team :: if team[w].Waiting? then Woken else team[w]
  }

  function WakePushes(calls: map<Sock, Call>): map<Sock, Call> {
    map x | x in calls :: if calls[x].Blocked? then Roused else calls[x]
  }

  function ShutdownStep(s: Pool, a: Act): Option<Pool> {
    match (s.stage, a)
    case (Running, SetFlag) => Some(s.(stage := FlagSet, down := true))
    case (FlagSet, NotifyAllEmpty) => Some(s.(stage := HalfNotified, team := WakeWorkers(s.team)))
    case (HalfNotified, NotifyAllFull) =>
      Some(s.(stage := Notified, calls := WakePushes(s.calls)))
    case (Notified, Join) =>
      if At(s.team, s.joined, Exited) then Some(s.(joined := s.joined + 1)) else None
    case (Notified, Return) => if s.joined == s.count then Some(s.(stage := Joined)) else None
    case _ => None
  }

  function Step(s: Pool, a: Act): Option<Pool> {
    match a
    case Accept(x) =>
      if x in s.place then None
      else Some(s.(calls := s.calls[x := Testing], place := s.place[x := Offered]))
    case Push(x) => PushStep(s, x)
    case PushSpurious(x) =>
      if At(s.calls, x, Blocked) then Some(s.(calls := s.calls[x := Roused])) else None
    case NotifyEmpty(x, worker) => NotifyEmptyStep(s, x, worker)
    case Drop(x) =>
      if At(s.calls, x, Refusal)
      then Some(s.(calls := s.calls - {x}, place := s.place[x := Dropped],
                   closes := s.closes + [x])) else None
    case Pop(w) => PopStep(s, w)
    case PopSpurious(w) =>
      if At(s.team, w, Waiting) then Some(s.(team := s.team[w := Woken])) else None
    case NotifyFull(w, push) => NotifyFullStep(s, w, push)
    case Begin(w) => BeginStep(s, w)
    case Close(w) => CloseStep(s, w)
    case End(w) => EndStep(s, w)
    case Throw(w) => ThrowStep(s, w)
    case _ => ShutdownStep(s, a)
  }

  // ----- invariants

  /** A push call is in progress with the socket where its phase says. */
  ghost predicate Offers(s: Pool) {
    && (forall x :: x in s.calls && Undecided(s.calls[x]) <==> x in s.place && s.place[x].Offered?)
    && (forall x :: x in s.calls && s.calls[x].Refusal? <==> x in s.place && s.place[x].Rejected?)
    && (forall x :: x in s.calls && s.calls[x].Signalling? ==> x in s.accepted)
  }

  predicate PastPush(p: Place) {
    !p.Offered? && !p.Rejected? && !p.Dropped?
  }

  ghost predicate NoDup(q: seq<Sock>) {
    forall i, j :: 0 <= i < j < |q| ==> q[i] != q[j]
  }

  /** Accepted tasks are popped in order: those popped so far, then the queue. */
  ghost predicate Fifo(s: Pool) {
    && s.accepted == s.taken + s.queue
    && NoDup(s.accepted)
    && (s.maxSize != 0 ==> |s.queue| <= s.maxSize)
    && (forall x :: x in s.accepted <==> x in s.place && PastPush(s.place[x]))
    && (forall x :: x in s.queue <==> x in s.place && s.place[x].Queued?)
  }

  predicate Busy(p: Phase) {
    p.Notifying? || p.Ready? || p.Handling?
  }

  function PlaceOf(w: Worker, p: Phase): Place {
    if p.Handling? then Handled(w) else Picked(w)
  }

  /** What workers hold. */
  ghost predicate Hands(s: Pool) {
    && (forall w: Worker :: w in s.team <==> w < s.count)
    && (forall w :: w in s.hand <==> w in s.team && Busy(s.team[w]))
    && (forall w :: w in s.hand ==>
          s.hand[w] in s.place && s.place[s.hand[w]] == PlaceOf(w, s.team[w]))
    && (forall x :: x in s.place && s.place[x].Picked? ==>
          s.place[x].w in s.hand && s.hand[s.place[x].w] == x)
    && (forall x :: x in s.place && s.place[x].Handled? ==>
          s.place[x].w in s.hand && s.hand[s.place[x].w] == x)
  }

  predicate Started(p: Place) {
    p.Handled? || p.Served? || p.Lost?
  }

  predicate Closed(p: Place) {
    p.Served? || p.Dropped?
  }

  /** Tasks are called at most once and sockets closed at most once. */
  ghost predicate Ledger(s: Pool) {
    && NoDup(s.begun) && NoDup(s.closes)
    && (forall x :: x in s.begun <==> x in s.place && Started(s.place[x]))
    && (forall x :: x in s.closes <==> x in s.place && Closed(s.place[x]))
    && (forall x :: x in s.lost <==> x in s.place && s.place[x].Lost?)
  }

  ghost predicate Counter(s: Pool) {
    s.active == Num(s.team, Handling) + Num(s.team, Ending) + |s.lost|
  }

  ghost predicate Stages(s: Pool) {
    && (s.down <==> !s.stage.Running?)
    && (forall w :: w in s.team && s.team[w].Exited? ==> s.down && s.queue == [])
    && (s.joined > 0 ==> s.stage.Notified? || s.stage.Joined?)
    && (if s.stage.Joined? then s.joined == s.count else s.joined <= s.count)
    && (forall w: nat :: w < s.joined ==> w in s.team && s.team[w].Exited?)
  }

  /**
    No wakeup is lost. While a consumer waits, pending and delivered wakeups cover the queue;
    while a producer waits, they cover the free slots; once the flag is set, a waiter still
    has its broadcast to come.
  */
  ghost predicate Wakeups(s: Pool) {
    && (!s.down && Num(s.team, Waiting) > 0 ==>
          Num(s.calls, Signalling) + Num(s.team, Woken) >= |s.queue|)
    && (!s.down && Num(s.calls, Blocked) > 0 ==>
          s.maxSize != 0
          && Num(s.team, Notifying) + Num(s.calls, Roused) >= s.maxSize - |s.queue|)
    && (s.down && Num(s.team, Waiting) > 0 ==> s.stage.FlagSet?)
    && (s.down && Num(s.calls, Blocked) > 0 ==> s.stage.FlagSet? || s.stage.HalfNotified?)
  }

  ghost predicate Inv(s: Pool) {
    Offers(s) && Fifo(s) && Hands(s) && Ledger(s) && Counter(s) && Stages(s) && Wakeups(s)
  }
}
