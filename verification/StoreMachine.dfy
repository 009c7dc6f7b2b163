/**
  FileManager as a concurrent protocol: any number of operation instances, each a program
  counter with its locals, interleaved one atomic step at a time. Locks, disk and index
  are shared; every step below is one library call or one statement of the C++ code.
*/
module StoreMachine {
  import opened Basics
  import opened AtomicStore
  import opened FileLocks

  /** Where an operation stands. `out` is the answer it is going to return. */
  datatype Pc =
    | Start                    // before the first acquire_lock_ref
    | SecondRef                // rename: before the second one
    | Wait                     // references taken, about to lock
    | HoldOne(k: Key)          // rename: inside std::lock, one mutex taken, trying the other
    | Locked                   // in the critical section, nothing done yet
    | Writing(buf: Bytes)      // save: file truncated, `buf` received so far
    | Broken(buf: Bytes)       // save: network error, partial file to be removed
    | Reading(sent: Bytes)     // stream: file open, `sent` on the wire so far
    | Unindex                  // delete: file removed, index entry not yet
    | Move                     // rename: both existence checks passed
    | Moved                    // rename: file renamed
    | Sized(n: nat)            // rename: old index size read
    | Relink(n: nat)           // rename: old index entry removed
    | Unlock(out: Outcome) | Unlock2(out: Outcome)    // explicit unlock() calls
    | Release(out: Outcome) | Release2(out: Outcome)  // release_lock_ref calls
    | Bail(out: Outcome) | Bail2(out: Outcome)        // leaving the scope: destructors unlock
    | BailEnd(out: Outcome)                           // and the references are dropped
    | Done(out: Outcome)

  /** `born` and `at` are history variables: the length of the history when the operation
      started, and the position of its event in it. */
  datatype Thread = Thread(op: Op, pc: Pc, born: nat, at: Option<nat>)

  /** `spec` and `hist` are history variables too: the atomic store and the linearized
      operations. No guard below reads a history variable. */
  datatype State = State(
    locks: Locks,
    disk: map<Key, Bytes>,
    index: map<Key, nat>,
    th: map<Tid, Thread>,
    spec: Store,
    hist: seq<Event>)

  function SizesOf(disk: map<Key, Bytes>): map<Key, nat> {
    map k | k in disk :: |disk[k]|
  }

  /** The server after rebuild_from_disk. */
  function Init(disk: map<Key, Bytes>): State {
    State(NO_LOCKS, disk, SizesOf(disk), map[], Store(disk, map[]), [])
  }

  /** What the scheduler, the network and the filesystem decide. */
  datatype Action =
    | Spawn(op: Op)
    | TakeRef(id: Id)          // the identity of a LockEntry, should one be created
    | TryFirst(k: Key)         // which mutex std::lock takes first
    | BackOff
    | Receive(chunk: Bytes) | ReceiveFails
    | SendFails(m: nat)        // after `m` bytes of the chunk
    | OpenFails
    | Throw
    | Next                     // the next statement

  /** rename_file returns before it takes a reference when both names agree. */
  predicate WellFormed(op: Op) {
    op.Rename? ==> op.src != op.dst
  }

  // ----- building the successor state

  function Goto(s: State, t: Tid, pc: Pc): State
    requires t in s.th
  {
    s.(th := s.th[t := s.th[t].(pc := pc)])
  }

  /** The operation takes effect with answer `out` (history variables only). */
  function Mark(s: State, t: Tid, out: Outcome): State
    requires t in s.th
  {
    var op := s.th[t].op;
    s.(th := s.th[t := s.th[t].(at := Some(|s.hist|))],
       hist := s.hist + [Event(t, op, out)],
       spec := if Allowed(s.spec, op, out) then Effect(s.spec, op, out) else s.spec)
  }

  function Decide(s: State, t: Tid, out: Outcome, pc: Pc): State
    requires t in s.th
  {
    Goto(Mark(s, t, out), t, pc)
  }

  // ----- steps on the locks

  /** One call on the lock manager or on a mutex. */
  datatype Deed =
    | Take(k: Key, id: Id)     // acquire_lock_ref
    | Own(k: Key)              // lock (shared for a stream)
    | Disown(k: Key)           // unlock
    | Return(k: Key)           // release_lock_ref
    | Forget                   // the pointers go out of scope

  /** The call an operation makes next, and where it stands afterwards. */
  function Plan(op: Op, pc: Pc, a: Action): Option<(Deed, Pc)> {
    match (pc, a)
    case (Start, TakeRef(id)) => Some((Take(op.First(), id), if op.Rename? then SecondRef else Wait))
    case (SecondRef, TakeRef(id)) => Some((Take(op.Last(), id), Wait))
    case (Wait, Next) => if op.Rename? then None else Some((Own(op.First()), Locked))
    case (Wait, TryFirst(k)) =>
      if op.Rename? && k in op.Keys() then Some((Own(k), HoldOne(k))) else None
    case (HoldOne(k), Next) => Some((Own(if k == op.First() then op.Last() else op.First()), Locked))
    case (HoldOne(k), BackOff) => Some((Disown(k), Wait))
    case (Unlock(out), Next) =>
      Some((Disown(op.First()), if op.Rename? then Unlock2(out) else Release(out)))
    case (Unlock2(out), Next) => Some((Disown(op.Last()), Release(out)))
    case (Release(out), Next) =>
      Some((Return(op.First()), if op.Rename? then Release2(out) else Done(out)))
    case (Release2(out), Next) => Some((Return(op.Last()), Done(out)))
    case (Bail(out), Next) =>
      Some((Disown(op.Last()), if op.Rename? then Bail2(out) else BailEnd(out)))
    case (Bail2(out), Next) => Some((Disown(op.First()), BailEnd(out)))
    case (BailEnd(out), Next) => Some((Forget, Done(out)))
    case _ => None
  }

  /** The call itself; `None` while it has to wait. */
  function Perform(l: Locks, t: Tid, op: Op, d: Deed): Option<Locks> {
    match d
    case Take(k, id) =>
      if CanAcquire(l, Hold(t, k), id) then Some(Acquire(l, Hold(t, k), id)) else None
    case Own(k) =>
      if op.Stream? then
        if CanRead(l, Hold(t, k)) then Some(LockRead(l, Hold(t, k))) else None
      else
        if CanWrite(l, Hold(t, k)) then Some(LockWrite(l, Hold(t, k))) else None
    case Disown(k) =>
      if CanUnlock(l, Hold(t, k)) then Some(FileLocks.Unlock(l, Hold(t, k))) else None
    case Return(k) =>
      if CanRelease(l, Hold(t, k)) then Some(FileLocks.Release(l, Hold(t, k))) else None
    case Forget =>
      var h, g := Hold(t, op.First()), Hold(t, op.Last());
      if !CanRelease(l, h) then None
      else if h == g then Some(Leak(l, h))
      else if !CanRelease(Leak(l, h), g) then None
      else Some(Leak(Leak(l, h), g))
  }

  function LockStep(s: State, t: Tid, a: Action): Option<State>
    requires t in s.th
  {
    match Plan(s.th[t].op, s.th[t].pc, a)
    case None => None
    case Some((d, pc)) =>
      match Perform(s.locks, t, s.th[t].op, d)
      case None => None
      case Some(l) => Some(Goto(s.(locks := l), t, pc))
  }

  // ----- steps on the disk and the index

  function ContentOf(s: State, k: Key): Bytes {
    if k in s.disk then s.disk[k] else []
  }

  /** What the next read of the open file returns. */
  function NextChunk(s: State, k: Key, sent: Bytes): Bytes {
    var data := ContentOf(s, k);
    if |sent| <= |data| then data[|sent|..][..Min(TRANSFER_BUFFER_SIZE, |data| - |sent|)] else []
  }

  /** A filesystem call throws before it has had any effect. */
  function ThrowStep(s: State, t: Tid): Option<State>
    requires t in s.th
  {
    if s.th[t].pc.Locked? || s.th[t].pc.Move?
    then Some(Decide(s, t, Threw, Bail(Threw)))
    else None
  }

  function SaveStep(s: State, t: Tid, a: Action): Option<State>
    requires t in s.th && s.th[t].op.Save?
  {
    var Save(k, size) := s.th[t].op;
    match (s.th[t].pc, a)
    case (Locked, Next) => Some(Goto(s.(disk := s.disk[k := []]), t, Writing([])))
    case (Locked, OpenFails) => Some(Decide(s, t, Refused, Pc.Unlock(Refused)))
    case (Writing(buf), Receive(chunk)) =>
      if |buf| < size && |chunk| == Min(TRANSFER_BUFFER_SIZE, size - |buf|)
      then Some(Goto(s.(disk := s.disk[k := ContentOf(s, k) + chunk]), t, Writing(buf + chunk)))
      else None
    case (Writing(buf), ReceiveFails) =>
      if |buf| < size then Some(Goto(s, t, Broken(buf))) else None
    case (Broken(buf), Next) =>
      Some(Decide(s.(disk := s.disk - {k}), t, SaveFailed, Bail(SaveFailed)))
    case (Writing(buf), Next) =>
      if |buf| < size then None
      else Some(Decide(s.(index := s.index[k := size]), t, Saved(buf), Pc.Unlock(Saved(buf))))
    case _ => None
  }

  function StreamStep(s: State, t: Tid, a: Action): Option<State>
    requires t in s.th && s.th[t].op.Stream?
  {
    var k := s.th[t].op.key;
    match (s.th[t].pc, a)
    case (Locked, Next) =>
      if k in s.disk then Some(Goto(s, t, Reading([])))
      else Some(Decide(s, t, NotFound, Pc.Unlock(NotFound)))
    case (Reading(sent), Next) =>
      var chunk := NextChunk(s, k, sent);
      if |chunk| < TRANSFER_BUFFER_SIZE
      then Some(Decide(s, t, Sent(sent + chunk), Bail(Sent(sent + chunk))))
      else Some(Goto(s, t, Reading(sent + chunk)))
    case (Reading(sent), SendFails(m)) =>
      var chunk := NextChunk(s, k, sent);
      if m < |chunk|
      then Some(Decide(s, t, Cut(sent + chunk[..m]), Pc.Unlock(Cut(sent + chunk[..m]))))
      else None
    case _ => None
  }

  function RenameStep(s: State, t: Tid, a: Action): Option<State>
    requires t in s.th && s.th[t].op.Rename?
  {
    var Rename(src, dst) := s.th[t].op;
    match (s.th[t].pc, a)
    case (Locked, Next) =>
      if src !in s.disk || dst in s.disk then Some(Decide(s, t, Clash, Pc.Unlock(Clash)))
      else Some(Goto(s, t, Move))
    case (Move, Next) =>
      Some(Decide(s.(disk := (s.disk - {src})[dst := ContentOf(s, src)]), t, Renamed, Moved))
    case (Moved, Next) =>
      Some(Goto(s, t, Sized(if src in s.index then s.index[src] else 0)))
    case (Sized(n), Next) =>
      Some(Goto(s.(index := s.index - {src}), t, Relink(n)))
    case (Relink(n), Next) =>
      Some(Goto(s.(index := s.index[dst := n]), t, Pc.Unlock(Renamed)))
    case _ => None
  }

  function DeleteStep(s: State, t: Tid, a: Action): Option<State>
    requires t in s.th && s.th[t].op.Delete?
  {
    var k := s.th[t].op.key;
    match (s.th[t].pc, a)
    case (Locked, Next) =>
      if k in s.disk then Some(Decide(s.(disk := s.disk - {k}), t, Deleted, Unindex))
      else Some(Decide(s, t, Missing, Pc.Unlock(Missing)))
    case (Unindex, Next) => Some(Goto(s.(index := s.index - {k}), t, Pc.Unlock(Deleted)))
    case _ => None
  }

  function DataStep(s: State, t: Tid, a: Action): Option<State>
    requires t in s.th
  {
    if a.Throw? then ThrowStep(s, t)
    else
      match s.th[t].op
      case Save(_, _) => SaveStep(s, t, a)
      case Stream(_) => StreamStep(s, t, a)
      case Delete(_) => DeleteStep(s, t, a)
      case Rename(_, _) => RenameStep(s, t, a)
  }

  /** One step of operation `t`; `None` when it cannot take it. */
  function Step(s: State, t: Tid, a: Action): Option<State> {
    if a.Spawn? then
      if t !in s.th && WellFormed(a.op)
      then Some(s.(th := s.th[t := Thread(a.op, Start, |s.hist|, None)]))
      else None
    else if t !in s.th then None
    else if LockStep(s, t, a).Some? then LockStep(s, t, a)
    else DataStep(s, t, a)
  }
}
