/** What every step of every interleaving keeps. */
module StoreInvariant {
  import opened Basics
  import opened AtomicStore
  import opened FileLocks
  import opened StoreMachine

  // ----- what a program counter says about the locks

  function RefKeys(th: Thread): set<Key> {
    match th.pc
    case Start => {}
    case SecondRef => {th.op.First()}
    case Release2(_) => {th.op.Last()}
    case Done(_) => {}
    case _ => th.op.Keys()
  }

  function HeldKeys(th: Thread): set<Key> {
    match th.pc
    case Start => {}
    case SecondRef => {}
    case Wait => {}
    case HoldOne(k) => {k}
    case Unlock2(_) => {th.op.Last()}
    case Bail2(_) => {th.op.First()}
    case Release(_) => {}
    case Release2(_) => {}
    case BailEnd(_) => {}
    case Done(_) => {}
    case _ => th.op.Keys()
  }

  function LeakedKeys(th: Thread): set<Key> {
    if th.pc.Done? && th.pc.out.Leaks() then th.op.Keys() else {}
  }

  /** The lock table records exactly the references and locks the program counters imply. */
  ghost predicate Tracks(s: State) {
    && (forall t, k :: Hold(t, k) in s.locks.refs <==> t in s.th && k in RefKeys(s.th[t]))
    && (forall t, k :: Hold(t, k) in s.locks.leaked <==> t in s.th && k in LeakedKeys(s.th[t]))
    && (forall t, k :: Hold(t, k) in s.locks.writing <==>
          t in s.th && !s.th[t].op.Stream? && k in HeldKeys(s.th[t]))
    && (forall t, k :: Hold(t, k) in s.locks.reading <==>
          t in s.th && s.th[t].op.Stream? && k in HeldKeys(s.th[t]))
  }

  // ----- the locals of one operation

  /** The answer of an operation that has taken effect. */
  function Decided(pc: Pc): Option<Outcome> {
    match pc
    case Unindex => Some(Deleted)
    case Moved => Some(Renamed)
    case Sized(_) => Some(Renamed)
    case Relink(_) => Some(Renamed)
    case Unlock(out) => Some(out)
    case Unlock2(out) => Some(out)
    case Release(out) => Some(out)
    case Release2(out) => Some(out)
    case Bail(out) => Some(out)
    case Bail2(out) => Some(out)
    case BailEnd(out) => Some(out)
    case Done(out) => Some(out)
    case _ => None
  }

  predicate Shaped(th: Thread) {
    && WellFormed(th.op)
    && (Decided(th.pc).Some? ==> Possible(th.op, Decided(th.pc).value))
    && match th.pc
       case SecondRef => th.op.Rename?
       case HoldOne(k) => th.op.Rename? && k in th.op.Keys()
       case Writing(buf) => th.op.Save? && |buf| <= th.op.size
       case Broken(buf) => th.op.Save?
       case Reading(_) => th.op.Stream?
       case Unindex => th.op.Delete?
       case Move => th.op.Rename?
       case Moved => th.op.Rename?
       case Sized(_) => th.op.Rename?
       case Relink(_) => th.op.Rename?
       case Unlock(out) => !out.Leaks()
       case Unlock2(out) => th.op.Rename? && !out.Leaks()
       case Release(out) => !out.Leaks()
       case Release2(out) => th.op.Rename? && !out.Leaks()
       case Bail(out) => out.Leaks()
       case Bail2(out) => th.op.Rename? && out.Leaks()
       case BailEnd(out) => out.Leaks()
       case _ => true
  }

  ghost predicate Shapes(s: State) {
    forall t :: t in s.th ==> Shaped(s.th[t])
  }

  // ----- the history

  /** The event of `th`, if it has taken effect, stands in the history after its start. */
  ghost predicate Timed(hist: seq<Event>, t: Tid, th: Thread) {
    && th.born <= |hist|
    && match Decided(th.pc)
       case None => th.at.None?
       case Some(out) =>
         && th.at.Some? && th.born <= th.at.value < |hist|
         && hist[th.at.value] == Event(t, th.op, out)
  }

  ghost predicate History(s: State, start: Store) {
    && Replay(start, s.hist) == Some(s.spec)
    && (forall t :: t in s.th ==> Timed(s.hist, t, s.th[t]))
    && (forall i :: 0 <= i < |s.hist| ==>
          s.hist[i].t in s.th && s.th[s.hist[i].t].at == Some(i))
  }

  // ----- disk, index and the atomic store

  /** What the disk and the index hold for one key. */
  datatype Cell = Cell(data: Option<Bytes>, size: Option<nat>)

  function CellAt(s: State, k: Key): Cell {
    Cell(if k in s.disk then Some(s.disk[k]) else None,
         if k in s.index then Some(s.index[k]) else None)
  }

  predicate Clean(spec: Store, k: Key, c: Cell) {
    c == Cell(spec.Content(k), spec.Indexed(k))
  }

  /** What the writer `th` of `k` has made of the cell so far. */
  predicate CellOk(th: Thread, spec: Store, k: Key, c: Cell) {
    match th.pc
    case Writing(buf) => c == Cell(Some(buf), spec.Indexed(k))
    case Broken(buf) => c == Cell(Some(buf), spec.Indexed(k))
    case Unindex => c.data == spec.Content(k) && k !in spec.files && k !in spec.stale
    case Moved =>
      && c.data == spec.Content(k)
      && (th.op.Rename? && k == th.op.src ==>
            spec.Indexed(k) == None && c.size == spec.Indexed(th.op.dst))
    case Sized(n) =>
      && c.data == spec.Content(k)
      && (th.op.Rename? && k == th.op.src ==> spec.Indexed(k) == None)
    case Relink(n) =>
      && c.data == spec.Content(k)
      && (th.op.Rename? && k == th.op.src ==> c.size == spec.Indexed(k))
    case _ => Clean(spec, k, c)
  }

  /** Facts an operation in its critical section relies on. */
  predicate LocalOk(th: Thread, spec: Store) {
    match th.pc
    case Reading(sent) =>
      th.op.Stream? ==> th.op.key in spec.files && sent <= spec.files[th.op.key]
    case Move => th.op.Rename? ==> th.op.src in spec.files && th.op.dst !in spec.files
    case Moved => th.op.Rename? ==> th.op.dst in spec.files
    case Sized(n) =>
      th.op.Rename? ==> th.op.dst in spec.files && n == |spec.files[th.op.dst]|
    case Relink(n) =>
      th.op.Rename? ==> th.op.dst in spec.files && n == |spec.files[th.op.dst]|
    case _ => true
  }

  ghost predicate Unheld(s: State, k: Key) {
    forall t :: Hold(t, k) !in s.locks.writing
  }

  ghost predicate Cells(s: State) {
    && s.spec.Valid()
    && (forall k :: Unheld(s, k) ==> Clean(s.spec, k, CellAt(s, k)))
    && (forall t, k :: t in s.th && Hold(t, k) in s.locks.writing ==>
          CellOk(s.th[t], s.spec, k, CellAt(s, k)))
    && (forall t :: t in s.th ==> LocalOk(s.th[t], s.spec))
  }

  ghost predicate Inv(s: State, start: Store) {
    && Sound(s.locks)
    && Tracks(s)
    && Shapes(s)
    && History(s, start)
    && Cells(s)
  }
}
