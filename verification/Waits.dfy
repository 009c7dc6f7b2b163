/** Which operations have to wait, and for whom. */
module Waits {
  import opened Basics
  import opened AtomicStore
  import opened FileLocks
  import opened StoreMachine
  import opened StoreInvariant
  import opened StoreSteps
  import opened StoreLocking
  import opened StorePreserved
  import opened StoreTheorems
  import opened StoreProgress

  /** Nobody reads or writes the path. */
  ghost predicate Untouched(s: State, k: Key) {
    forall t :: Hold(t, k) !in s.locks.writing && Hold(t, k) !in s.locks.reading
  }

  /** What an entry says of its path. */
  lemma EntryWriter(l: Locks, h: Hold)
    requires Sound(l) && h in l.refs
    ensures l.refs[h] in l.entries
    ensures l.entries[l.refs[h]].writer.None? <==> forall u :: Hold(u, h.k) !in l.writing
  {
    var e := l.entries[l.table[h.k]];
    forall u: Tid | Hold(u, h.k) in l.writing ensures e.writer == Some(u) {
      assert l.refs[Hold(u, h.k)] == l.table[h.k];
    }
    if e.writer.Some? {
      assert Hold(e.writer.value, h.k) in l.writing;
    }
  }

  lemma EntryReaders(l: Locks, h: Hold)
    requires Sound(l) && h in l.refs
    ensures l.refs[h] in l.entries
    ensures l.entries[l.refs[h]].readers == {} <==> forall u :: Hold(u, h.k) !in l.reading
  {
    var e := l.entries[l.table[h.k]];
    forall u: Tid | Hold(u, h.k) in l.reading ensures u in e.readers {
      assert l.refs[Hold(u, h.k)] == l.table[h.k];
    }
    if e.readers != {} {
      var u :| u in e.readers;
      assert Hold(u, h.k) in l.reading;
    }
  }

  /** A call for a mutex is granted to an operation without it exactly when the mutex is free for it. */
  lemma OwnGranted(s: State, t: Tid, k: Key)
    requires Sound(s.locks) && Tracks(s) && t in s.th && k in RefKeys(s.th[t]) && k !in HeldKeys(s.th[t])
    ensures Perform(s.locks, t, s.th[t].op, Own(k)).Some? <==>
            if s.th[t].op.Stream? then Unheld(s, k) else Untouched(s, k)
  {
    var h := Hold(t, k);
    assert h in s.locks.refs && h !in s.locks.reading;
    EntryWriter(s.locks, h);
    EntryReaders(s.locks, h);
  }

  /** An operation at a lock call has no other step. */
  lemma OnlyCall(s: State, t: Tid, a: Action, k: Key, pc: Pc)
    requires t in s.th && !a.Spawn? && (s.th[t].pc.Wait? || s.th[t].pc.HoldOne?)
    requires Plan(s.th[t].op, s.th[t].pc, a) == Some((Own(k), pc))
    ensures Step(s, t, a).Some? <==> Perform(s.locks, t, s.th[t].op, Own(k)).Some?
  {
  }

  lemma Enters(s: State, t: Tid, a: Action, k: Key, pc: Pc)
    requires Sound(s.locks) && Tracks(s) && t in s.th && !a.Spawn?
    requires k in s.th[t].op.Keys() && (s.th[t].pc.Wait? || (s.th[t].pc.HoldOne? && s.th[t].pc.k != k))
    requires Plan(s.th[t].op, s.th[t].pc, a) == Some((Own(k), pc))
    ensures Step(s, t, a).Some? <==> if s.th[t].op.Stream? then Unheld(s, k) else Untouched(s, k)
  {
    OwnGranted(s, t, k);
    OnlyCall(s, t, a, k, pc);
  }

  lemma ReachesBooks(disk: map<Key, Bytes>, choices: seq<Choice>, s: State)
    requires Reaches(disk, choices, s)
    ensures Sound(s.locks) && Tracks(s)
  {
    ReachesInv(disk, choices, s);
  }

  /** A download enters exactly when nobody holds its path for writing: downloads of one file
      run together. */
  lemma ReaderEnters(disk: map<Key, Bytes>, choices: seq<Choice>, s: State, t: Tid)
    requires Reaches(disk, choices, s) && t in s.th && s.th[t].op.Stream? && s.th[t].pc.Wait?
    ensures Step(s, t, Next).Some? <==> forall u :: Hold(u, s.th[t].op.key) !in s.locks.writing
  {
    ReachesBooks(disk, choices, s);
    Enters(s, t, Next, s.th[t].op.key, Locked);
  }

  /** An upload or a deletion enters exactly when nobody holds its path at all. */
  lemma WriterEnters(disk: map<Key, Bytes>, choices: seq<Choice>, s: State, t: Tid)
    requires Reaches(disk, choices, s) && t in s.th && s.th[t].pc.Wait?
    requires s.th[t].op.Save? || s.th[t].op.Delete?
    ensures Step(s, t, Next).Some? <==> forall u ::
      Hold(u, s.th[t].op.key) !in s.locks.writing && Hold(u, s.th[t].op.key) !in s.locks.reading
  {
    ReachesBooks(disk, choices, s);
    Enters(s, t, Next, s.th[t].op.key, Locked);
  }

  /** A rename takes either of its mutexes first, and then the other one, exactly when nobody holds it. */
  lemma RenameEnters(disk: map<Key, Bytes>, choices: seq<Choice>, s: State, t: Tid, k: Key)
    requires Reaches(disk, choices, s) && t in s.th && s.th[t].op.Rename?
    requires k == s.th[t].op.src || k == s.th[t].op.dst
    requires s.th[t].pc.Wait? || (s.th[t].pc.HoldOne? && s.th[t].pc.k != k)
    ensures Step(s, t, if s.th[t].pc.Wait? then TryFirst(k) else Next).Some? <==>
            forall u :: Hold(u, k) !in s.locks.writing && Hold(u, k) !in s.locks.reading
  {
    ReachesBooks(disk, choices, s);
    HeldIsOwn(disk, choices, s, t);
    if s.th[t].pc.Wait? {
      Enters(s, t, TryFirst(k), k, HoldOne(k));
    } else {
      Enters(s, t, Next, k, Locked);
    }
  }

  lemma HeldIsOwn(disk: map<Key, Bytes>, choices: seq<Choice>, s: State, t: Tid)
    requires Reaches(disk, choices, s) && t in s.th
    ensures s.th[t].pc.HoldOne? ==> s.th[t].pc.k in s.th[t].op.Keys()
  {
    ReachesInv(disk, choices, s);
    assert Shaped(s.th[t]);
  }

  lemma AskRef(s: State, t: Tid)
    requires Sound(s.locks) && Tracks(s) && t in s.th && Shaped(s.th[t])
    requires s.th[t].pc.Start? || s.th[t].pc.SecondRef?
    ensures exists id :: Step(s, t, TakeRef(id)).Some?
  {
    var id := FreshId(s.locks.entries.Keys);
    var d := Plan(s.th[t].op, s.th[t].pc, TakeRef(id)).value.0;
    PlanNeeds(s.th[t], TakeRef(id));
    Granted(s, t, d);
    assert Step(s, t, TakeRef(id)).Some?;
  }

  /** Nobody waits anywhere else: every other unfinished operation has a step to take, without any
      failure, whatever the others do. */
  lemma OthersGoOn(disk: map<Key, Bytes>, choices: seq<Choice>, s: State, t: Tid)
    requires Reaches(disk, choices, s) && t in s.th
    requires !s.th[t].pc.Done? && !s.th[t].pc.Wait? && !s.th[t].pc.HoldOne?
    ensures exists a :: Benign(a) && Step(s, t, a).Some?
  {
    ReachesInv(disk, choices, s);
    if s.th[t].pc.Start? || s.th[t].pc.SecondRef? {
      AskRef(s, t);
      var id :| Step(s, t, TakeRef(id)).Some?;
      assert Benign(TakeRef(id));
    } else {
      var a := FreeStep(s, Store(disk, map[]), t);
    }
  }

  /** Where the network or the filesystem can fail an operation, it can: nothing else is asked. */
  lemma FailuresCome(s: State, t: Tid)
    requires t in s.th && Shaped(s.th[t])
    ensures s.th[t].pc.Locked? || s.th[t].pc.Move? ==>
      Step(s, t, Throw).Some? && Decided(Step(s, t, Throw).value.th[t].pc) == Some(Threw)
    ensures s.th[t].pc.Locked? && s.th[t].op.Save? ==>
      Step(s, t, OpenFails).Some? && Decided(Step(s, t, OpenFails).value.th[t].pc) == Some(Refused)
    ensures s.th[t].pc.Writing? && |s.th[t].pc.buf| < s.th[t].op.size ==>
      Step(s, t, ReceiveFails).Some? && Step(s, t, ReceiveFails).value.th[t].pc.Broken?
    ensures s.th[t].pc.Reading? ==>
      var chunk := NextChunk(s, s.th[t].op.key, s.th[t].pc.sent);
      forall m: nat :: m < |chunk| ==>
        && Step(s, t, SendFails(m)).Some?
        && Decided(Step(s, t, SendFails(m)).value.th[t].pc) == Some(Cut(s.th[t].pc.sent + chunk[..m]))
  {
  }

  /** A download sends 8 KiB at a time: a full chunk and it goes on, fewer bytes and it is done. */
  lemma SendsByChunk(s: State, t: Tid)
    requires t in s.th && Shaped(s.th[t]) && s.th[t].pc.Reading? && s.th[t].op.key in s.disk
    requires s.th[t].pc.sent <= s.disk[s.th[t].op.key]
    ensures Step(s, t, Next).Some?
    ensures var sent := s.th[t].pc.sent;
            var left := s.disk[s.th[t].op.key][|sent|..];
            Step(s, t, Next).value.th[t].pc ==
            if |left| < 8192 then Bail(Sent(sent + left)) else Reading(sent + left[..8192])
  {
    var sent := s.th[t].pc.sent;
    var left := s.disk[s.th[t].op.key][|sent|..];
    assert |left| < 8192 ==> left[..|left|] == left;
  }

  /** An upload receives 8 KiB at a time, the last time what is left. */
  lemma ReceivesByChunk(s: State, t: Tid, chunk: Bytes)
    requires t in s.th && Shaped(s.th[t]) && s.th[t].pc.Writing?
    ensures var left := s.th[t].op.size - |s.th[t].pc.buf|;
            Step(s, t, Receive(chunk)).Some? <==> left > 0 && |chunk| == (if left < 8192 then left else 8192)
    ensures Step(s, t, Receive(chunk)).Some? ==>
      Step(s, t, Receive(chunk)).value.th[t].pc == Writing(s.th[t].pc.buf + chunk)
  {
  }
}
