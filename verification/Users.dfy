/** Many clients, one at a time: what whole serial runs mean. */
module Users {
  import opened Basics
  import opened Paths
  import opened AtomicStore
  import opened Wire
  import opened Network
  import opened Protocol
  import opened Session
  import opened Client
  import opened Lockstep
  import opened Folds
  import opened Answers

  type Sid = nat

  /** The server's store and every connection. */
  datatype World = World(store: Store, conns: map<Sid, Conn>)

  /** An operation of one client, and what the filesystem does to it. */
  type Turn = (Sid, Command, Fate)

  function WorldStep(text: Text, w: World, t: Turn): (World, Heard) {
    if t.0 !in w.conns then (w, Heard(FAILED))
    else
      var (s, c, h) := Exchange(text, t.2, w.store, w.conns[t.0], t.1);
      (World(s, w.conns[t.0 := c]), h)
  }

  function WorldRun(text: Text, w: World, turns: seq<Turn>): (World, seq<Heard>) {
    Fold((m: World, t: Turn) => WorldStep(text, m, t), w, turns)
  }

  // ----- the same without bytes

  /** Store and logged-in user of every open session. `orphans` are the clients that took a
      download that broke off for an empty file and have not noticed that the server is gone. */
  datatype Rpc = Rpc(store: Store, users: map<Sid, Bytes>, orphans: set<Sid>)

  /** What becomes of a session after an operation. */
  datatype Fortune = Open(user: Bytes) | Closed | Orphaned

  function FortuneOf(s: Store, user: Bytes, c: Command, after: Bytes): Fortune {
    if c.Quit? then Closed
    else if !Breaks(s, user, c) then Open(after)
    else if s.Indexed(Key(user, c.file)) == Some(0) then Orphaned
    else Closed
  }

  function Placed(r: Rpc, s: Store, i: Sid, f: Fortune): Rpc {
    match f
    case Open(user) => Rpc(s, r.users[i := user], r.orphans)
    case Closed => Rpc(s, r.users - {i}, r.orphans)
    case Orphaned => Rpc(s, r.users - {i}, r.orphans + {i})
  }

  function RpcStep(text: Text, r: Rpc, t: Turn): (Rpc, Result) {
    if t.0 in r.users then
      var user := r.users[t.0];
      var (s, after, result) := Meaning(text, t.2, r.store, user, t.1);
      (Placed(r, s, t.0, FortuneOf(r.store, user, t.1, after)), result)
    else if t.0 in r.orphans then
      (Rpc(r.store, r.users, r.orphans - {t.0}), Result(t.1.Quit?, None))
    else (r, FAILED)
  }

  function Rpcs(text: Text): (Rpc, Turn) -> (Rpc, Result) {
    (m, t) => RpcStep(text, m, t)
  }

  function RpcRun(text: Text, r: Rpc, turns: seq<Turn>): (Rpc, seq<Result>) {
    Fold(Rpcs(text), r, turns)
  }

  /** What the channels of one connection look like in each case. */
  ghost predicate Shows(c: Conn, r: Rpc, i: Sid) {
    if i in r.users then Talking(c) && c.user == r.users[i]
    else if i in r.orphans then
      c.connected && !c.serving && c.user != [] && c.toServer == [] && c.toClient == []
    else !c.connected && c.toClient == []
  }

  /** Every open connection is at a frame boundary, with empty channels, and the connections carry
      exactly the open sessions and the orphans. */
  ghost predicate Mirrors(w: World, r: Rpc) {
    && w.store == r.store && r.users.Keys <= w.conns.Keys && r.orphans <= w.conns.Keys
    && r.users.Keys !! r.orphans
    && forall i :: i in w.conns ==> Shows(w.conns[i], r, i)
  }

  /** The store is consistent; stale entries may be left in it by failed overwrites. */
  ghost predicate Sound(s: Store) {
    s.Valid() && Sized(s)
  }

  /** The fields of every request of the run fit, whoever is logged in when it is made. */
  ghost predicate RunFits(text: Text, r: Rpc, turns: seq<Turn>) {
    forall i :: 0 <= i < |turns| ==>
      var m := RpcRun(text, r, turns[..i]).0;
      turns[i].0 in m.users ==> Fits(m.users[turns[i].0], turns[i].1)
  }

  /** A change to one connection and its session leaves all the others as they are. */
  lemma MirrorsPlaced(w: World, r: Rpc, s: Store, i: Sid, f: Fortune, c: Conn)
    requires Mirrors(w, r) && i in r.users
    requires match f
             case Open(user) => Talking(c) && c.user == user
             case Closed => !c.connected && c.toClient == []
             case Orphaned => c.connected && !c.serving && c.user != [] && c.toServer == [] && c.toClient == []
    ensures Mirrors(World(s, w.conns[i := c]), Placed(r, s, i, f))
  {
  }

  lemma StepRefines(text: Text, w: World, r: Rpc, t: Turn)
    requires Mirrors(w, r) && Sound(r.store) && ShortText(text)
    requires t.0 in r.users ==> Fits(r.users[t.0], t.1)
    ensures var (w', h) := WorldStep(text, w, t);
            var (r', x) := RpcStep(text, r, t);
            Mirrors(w', r') && h == Heard(x) && Sound(r'.store)
  {
    if t.0 in r.users {
      LockstepExactly(text, t.2, w.store, w.conns[t.0], t.1);
      var (s, c, h) := Exchange(text, t.2, w.store, w.conns[t.0], t.1);
      var user := r.users[t.0];
      var f := FortuneOf(r.store, user, t.1, Meaning(text, t.2, r.store, user, t.1).1);
      MirrorsPlaced(w, r, s, t.0, f, c);
      MeaningSound(text, t.2, r.store, r.users[t.0], t.1);
    } else if t.0 in r.orphans {
      Abandoned(text, t.2, w.store, w.conns[t.0], t.1);
    }
  }

  /**
    Serial runs stay in lockstep: whatever the clients do, in whatever order and whatever stale
    entries the store holds, nobody hangs, every client hears what its operation means, and after
    every operation all open connections stand at a frame boundary with empty channels. Only QUIT
    and a download that breaks off end a session.
  */
  lemma {:induction false} RunRefines(text: Text, w: World, r: Rpc, turns: seq<Turn>)
    requires Mirrors(w, r) && Sound(r.store) && ShortText(text) && RunFits(text, r, turns)
    ensures var (w', hs) := WorldRun(text, w, turns);
            var (r', xs) := RpcRun(text, r, turns);
            && Mirrors(w', r') && Sound(r'.store)
            && |hs| == |xs| == |turns|
            && forall i :: 0 <= i < |turns| ==> hs[i] == Heard(xs[i])
    decreases |turns|
  {
    if turns != [] {
      var n := |turns| - 1;
      assert forall i :: 0 <= i <= n ==> turns[..n][..i] == turns[..i];
      RunRefines(text, w, r, turns[..n]);
      StepRefines(text, WorldRun(text, w, turns[..n]).0, RpcRun(text, r, turns[..n]).0, turns[n]);
    }
  }

  // ----- end to end

  /** The operation may change the file `k`. */
  predicate Writes(user: Bytes, c: Command, k: Key) {
    user == k.user
    && match c
       case Upload(file, _) => file == k.name
       case Delete(file) => file == k.name
       case Rename(oldName, newName) => oldName == k.name || newName == k.name
       case _ => false
  }

  /** Nobody writes `k` during the run. */
  ghost predicate NoWrites(text: Text, r: Rpc, turns: seq<Turn>, k: Key) {
    forall i :: 0 <= i < |turns| ==>
      var m := RpcRun(text, r, turns[..i]).0;
      turns[i].0 in m.users ==> !Writes(m.users[turns[i].0], turns[i].1, k)
  }

  lemma MeaningKeeps(text: Text, fate: Fate, s: Store, user: Bytes, c: Command, k: Key)
    requires !Writes(user, c, k)
    ensures Meaning(text, fate, s, user, c).0.Content(k) == s.Content(k)
    ensures Meaning(text, fate, s, user, c).0.Indexed(k) == s.Indexed(k)
  {
  }

  lemma {:induction false} RunKeeps(text: Text, r: Rpc, turns: seq<Turn>, k: Key)
    requires NoWrites(text, r, turns, k)
    ensures RpcRun(text, r, turns).0.store.Content(k) == r.store.Content(k)
    ensures RpcRun(text, r, turns).0.store.Indexed(k) == r.store.Indexed(k)
    decreases |turns|
  {
    if turns != [] {
      var n := |turns| - 1;
      assert forall i :: 0 <= i <= n ==> turns[..n][..i] == turns[..i];
      RunKeeps(text, r, turns[..n], k);
      var m := RpcRun(text, r, turns[..n]).0;
      if turns[n].0 in m.users {
        MeaningKeeps(text, turns[n].2, m.store, m.users[turns[n].0], turns[n].1, k);
      }
    }
  }

  /**
    Round trip over the wire: a client uploads a file, anything may happen that does not
    write it, and a client logged in as the same user downloads it: both operations succeed
    and the local file has the uploaded bytes, whatever their number.
  */
  lemma RoundTrip(text: Text, w: World, r: Rpc, a: Sid, f: Fate, b: Sid, g: Fate, name: Bytes, data: Bytes,
                  mid: seq<Turn>)
    requires Mirrors(w, r) && Sound(r.store) && ShortText(text) && ValidName(name)
    requires a in r.users && r.users[a] != [] && f.canOpen
    requires var turns := [(a, Upload(name, data), f)] + mid + [(b, Download(name, true), g)];
             RunFits(text, r, turns)
    requires var r1 := RpcStep(text, r, (a, Upload(name, data), f)).0;
             && NoWrites(text, r1, mid, Key(r.users[a], name))
             && var m := RpcRun(text, r1, mid).0;
                b in m.users && m.users[b] == r.users[a]
    ensures var turns := [(a, Upload(name, data), f)] + mid + [(b, Download(name, true), g)];
            var hs := WorldRun(text, w, turns).1;
            && |hs| == |turns|
            && hs[0] == Heard(Result(true, None))
            && hs[|hs| - 1] == Heard(Result(true, Some(data)))
  {
    var k := Key(r.users[a], name);
    var first, last := (a, Upload(name, data), f), (b, Download(name, true), g);
    var r1 := RpcStep(text, r, first).0;
    Bracketed(text, w, r, first, mid, last);
    UploadStores(text, r, a, f, name, data);
    RunKeeps(text, r1, mid, k);
    DownloadReads(text, RpcRun(text, r1, mid).0, b, g, name, data);
  }

  /** What the first and the last of a run hear. */
  lemma Bracketed(text: Text, w: World, r: Rpc, first: Turn, mid: seq<Turn>, last: Turn)
    requires Mirrors(w, r) && Sound(r.store) && ShortText(text) && RunFits(text, r, [first] + mid + [last])
    ensures var hs := WorldRun(text, w, [first] + mid + [last]).1;
            var (r1, x) := RpcStep(text, r, first);
            && |hs| == |mid| + 2 && hs[0] == Heard(x)
            && hs[|hs| - 1] == Heard(RpcStep(text, RpcRun(text, r1, mid).0, last).1)
    ensures WorldRun(text, w, [first]).0.store == RpcStep(text, r, first).0.store
  {
    var r1 := RpcStep(text, r, first).0;
    RunRefines(text, w, r, [first] + mid + [last]);
    FoldOne(Rpcs(text), r, first);
    FoldConcat(Rpcs(text), r, [first], mid);
    FoldConcat(Rpcs(text), r, [first] + mid, [last]);
    FoldOne(Rpcs(text), RpcRun(text, r1, mid).0, last);
    assert [first] + (mid + [last]) == [first] + mid + [last];
    FitsFirst(text, r, first, mid + [last]);
    RunRefines(text, w, r, [first]);
  }

  lemma FitsFirst(text: Text, r: Rpc, first: Turn, rest: seq<Turn>)
    requires RunFits(text, r, [first] + rest)
    ensures RunFits(text, r, [first])
  {
    var all := [first] + rest;
    assert all[..0] == [first][..0] && all[0] == first;
    assert first.0 in RpcRun(text, r, all[..0]).0.users ==> Fits(RpcRun(text, r, all[..0]).0.users[first.0], first.1);
  }

  lemma UploadStores(text: Text, r: Rpc, a: Sid, f: Fate, name: Bytes, data: Bytes)
    requires a in r.users && r.users[a] != [] && ValidName(name) && f.canOpen
    ensures var (r1, x) := RpcStep(text, r, (a, Upload(name, data), f));
            x == Result(true, None) && r1.store.Content(Key(r.users[a], name)) == Some(data)
  {
  }

  lemma DownloadReads(text: Text, r: Rpc, b: Sid, g: Fate, name: Bytes, data: Bytes)
    requires b in r.users && r.users[b] != [] && ValidName(name)
    requires r.store.Content(Key(r.users[b], name)) == Some(data)
    ensures RpcStep(text, r, (b, Download(name, true), g)).1 == Result(true, Some(data))
  {
  }

  lemma RenameStores(text: Text, r: Rpc, a: Sid, f: Fate, oldName: Bytes, newName: Bytes, data: Bytes)
    requires a in r.users && r.users[a] != [] && ValidName(oldName) && ValidName(newName) && !f.throws
    requires oldName != newName && r.store.Content(Key(r.users[a], newName)) == None
    requires r.store.Content(Key(r.users[a], oldName)) == Some(data)
    ensures var (r1, x) := RpcStep(text, r, (a, Command.Rename(oldName, newName), f));
            && x == Result(true, None) && r1.store.Content(Key(r.users[a], newName)) == Some(data)
            && r1.store.Content(Key(r.users[a], oldName)) == None
  {
  }

  /**
    A rename over the wire: a client renames a file to a name that is free, anything may happen that
    does not write the new name, and a client logged in as the same user downloads it. The rename
    succeeds, the old name has no file after it and the new one the old bytes, and those arrive.
  */
  lemma RenameTrip(text: Text, w: World, r: Rpc, a: Sid, f: Fate, b: Sid, g: Fate, oldName: Bytes,
                   newName: Bytes, data: Bytes, mid: seq<Turn>)
    requires Mirrors(w, r) && Sound(r.store) && ShortText(text) && ValidName(oldName) && ValidName(newName)
    requires a in r.users && r.users[a] != [] && !f.throws && oldName != newName
    requires w.store.Content(Key(r.users[a], oldName)) == Some(data)
    requires w.store.Content(Key(r.users[a], newName)) == None
    requires RunFits(text, r, [(a, Command.Rename(oldName, newName), f)] + mid + [(b, Download(newName, true), g)])
    requires var r1 := RpcStep(text, r, (a, Command.Rename(oldName, newName), f)).0;
             && NoWrites(text, r1, mid, Key(r.users[a], newName))
             && var m := RpcRun(text, r1, mid).0;
                b in m.users && m.users[b] == r.users[a]
    ensures var first, last := (a, Command.Rename(oldName, newName), f), (b, Download(newName, true), g);
            var hs := WorldRun(text, w, [first] + mid + [last]).1;
            var s := WorldRun(text, w, [first]).0.store;
            && |hs| == |mid| + 2
            && hs[0] == Heard(Result(true, None)) && hs[|hs| - 1] == Heard(Result(true, Some(data)))
            && s.Content(Key(r.users[a], newName)) == Some(data)
            && s.Content(Key(r.users[a], oldName)) == None
  {
    var first, last := (a, Command.Rename(oldName, newName), f), (b, Download(newName, true), g);
    var r1 := RpcStep(text, r, first).0;
    Bracketed(text, w, r, first, mid, last);
    RenameStores(text, r, a, f, oldName, newName, data);
    RunKeeps(text, r1, mid, Key(r.users[a], newName));
    DownloadReads(text, RpcRun(text, r1, mid).0, b, g, newName, data);
  }

  /** A rename onto another file that exists, anywhere in a run: the client hears a failure, and the
      store, both files in it, is as it was. */
  lemma RenameClash(text: Text, w: World, r: Rpc, pre: seq<Turn>, a: Sid, f: Fate, oldName: Bytes, newName: Bytes)
    requires Mirrors(w, r) && Sound(r.store) && ShortText(text) && oldName != newName
    requires RunFits(text, r, pre + [(a, Command.Rename(oldName, newName), f)])
    requires var m := RpcRun(text, r, pre).0;
             a in m.users && WorldRun(text, w, pre).0.store.Content(Key(m.users[a], newName)).Some?
    ensures var turns := pre + [(a, Command.Rename(oldName, newName), f)];
            && WorldRun(text, w, turns).0.store == WorldRun(text, w, pre).0.store
            && WorldRun(text, w, turns).1 == WorldRun(text, w, pre).1 + [Heard(Result(false, None))]
  {
    var t := (a, Command.Rename(oldName, newName), f);
    FitsBefore(text, r, pre, t);
    RunRefines(text, w, r, pre);
    var m, n := WorldRun(text, w, pre).0, RpcRun(text, r, pre).0;
    assert (pre + [t])[..|pre|] == pre;
    RenameHeard(text, f, m.store, m.conns[a], oldName, newName);
  }

  lemma FitsBefore(text: Text, r: Rpc, pre: seq<Turn>, t: Turn)
    requires RunFits(text, r, pre + [t])
    ensures RunFits(text, r, pre) && TurnFits(text, r, pre, t)
  {
    var all := pre + [t];
    forall i | 0 <= i < |pre| ensures TurnFits(text, r, pre[..i], pre[i]) {
      assert all[..i] == pre[..i] && all[i] == pre[i];
      assert TurnFits(text, r, all[..i], all[i]);
    }
    assert all[..|pre|] == pre && all[|pre|] == t;
    assert TurnFits(text, r, all[..|pre|], all[|pre|]);
  }

  lemma DeleteStores(text: Text, r: Rpc, a: Sid, f: Fate, name: Bytes)
    requires r.store.Valid() && a in r.users && r.users[a] != [] && ValidName(name) && !f.throws
    requires r.store.Content(Key(r.users[a], name)).Some?
    ensures var (r1, x) := RpcStep(text, r, (a, Command.Delete(name), f));
            && x == Result(true, None) && r1.store.Content(Key(r.users[a], name)) == None
            && r1.store.Indexed(Key(r.users[a], name)) == None
  {
  }

  lemma NothingToRead(text: Text, r: Rpc, b: Sid, g: Fate, name: Bytes, canCreate: bool)
    requires b in r.users && r.store.Indexed(Key(r.users[b], name)) == None
    ensures RpcStep(text, r, (b, Download(name, canCreate), g)).1 == Result(false, None)
  {
  }

  /** A deletion over the wire: it succeeds, no file is left, and until someone writes the name again a
      download of it fails. */
  lemma DeleteTrip(text: Text, w: World, r: Rpc, a: Sid, f: Fate, b: Sid, g: Fate, name: Bytes,
                   mid: seq<Turn>, canCreate: bool)
    requires Mirrors(w, r) && Sound(r.store) && ShortText(text) && ValidName(name)
    requires a in r.users && r.users[a] != [] && !f.throws
    requires w.store.Content(Key(r.users[a], name)).Some?
    requires RunFits(text, r, [(a, Command.Delete(name), f)] + mid + [(b, Download(name, canCreate), g)])
    requires var r1 := RpcStep(text, r, (a, Command.Delete(name), f)).0;
             && NoWrites(text, r1, mid, Key(r.users[a], name))
             && var m := RpcRun(text, r1, mid).0;
                b in m.users && m.users[b] == r.users[a]
    ensures var first, last := (a, Command.Delete(name), f), (b, Download(name, canCreate), g);
            var hs := WorldRun(text, w, [first] + mid + [last]).1;
            && |hs| == |mid| + 2
            && hs[0] == Heard(Result(true, None)) && hs[|hs| - 1] == Heard(Result(false, None))
            && WorldRun(text, w, [first]).0.store.Content(Key(r.users[a], name)) == None
  {
    var first, last := (a, Command.Delete(name), f), (b, Download(name, canCreate), g);
    var r1 := RpcStep(text, r, first).0;
    Bracketed(text, w, r, first, mid, last);
    DeleteStores(text, r, a, f, name);
    RunKeeps(text, r1, mid, Key(r.users[a], name));
    NothingToRead(text, RpcRun(text, r1, mid).0, b, g, name, canCreate);
  }

  /**
    A list over the wire, anywhere in a run: the server's reply is a 200 frame around the text of exactly
    the names indexed for the user, with their sizes, or around "(Empty)" when there is none. The client
    hears a success.
  */
  lemma ListShows(text: Text, w: World, r: Rpc, pre: seq<Turn>, b: Sid, g: Fate, l: map<Bytes, nat>)
    requires Mirrors(w, r) && Sound(r.store) && ShortText(text)
    requires RunFits(text, r, pre + [(b, List, g)])
    requires var m := RpcRun(text, r, pre).0;
             && b in m.users && m.users[b] != []
             && forall n :: WorldRun(text, w, pre).0.store.Indexed(Key(m.users[b], n))
                            == if n in l then Some(l[n]) else None
    ensures b in WorldRun(text, w, pre).0.conns
    ensures var m := WorldRun(text, w, pre).0;
            var body := if l == map[] then Ascii("(Empty)") else text(l);
            && ServerTurn(text, g, m.store, ClientSends(m.conns[b], List)).1.toClient ==
               BigEndian(4, 4) + BigEndian(200, 4) + BigEndian(|body|, 8) + BigEndian(0, 8) + BigEndian(0, 8) + body
            && WorldRun(text, w, pre + [(b, List, g)]).1 == WorldRun(text, w, pre).1 + [Heard(Result(true, None))]
  {
    var t := (b, List, g);
    FitsBefore(text, r, pre, t);
    RunRefines(text, w, r, pre);
    var m := WorldRun(text, w, pre).0;
    assert (pre + [t])[..|pre|] == pre;
    TurnIsServe(text, g, m.store, m.conns[b], List);
    ListAnswered(text, g, m.store, m.conns[b].user, RequestOf(m.conns[b].user, List), l);
    OthersHeard(text, g, m.store, m.conns[b], List);
    ReplyFrame(4, 200, if l == map[] then Ascii("(Empty)") else text(l));
  }

  /** After an upload, and anything that does not write the file, the list of the user holds its name
      with its size. */
  lemma UploadListed(text: Text, w: World, r: Rpc, a: Sid, f: Fate, b: Sid, g: Fate, name: Bytes, data: Bytes,
                     mid: seq<Turn>) returns (l: map<Bytes, nat>)
    requires Mirrors(w, r) && Sound(r.store) && ShortText(text) && ValidName(name)
    requires a in r.users && r.users[a] != [] && f.canOpen
    requires RunFits(text, r, [(a, Upload(name, data), f)] + mid + [(b, List, g)])
    requires var r1 := RpcStep(text, r, (a, Upload(name, data), f)).0;
             && NoWrites(text, r1, mid, Key(r.users[a], name))
             && var m := RpcRun(text, r1, mid).0;
                b in m.users && m.users[b] == r.users[a]
    ensures name in l && l[name] == |data|
    ensures var m := WorldRun(text, w, [(a, Upload(name, data), f)] + mid).0;
            && b in m.conns
            && (forall n :: m.store.Indexed(Key(r.users[a], n)) == if n in l then Some(l[n]) else None)
            && ServerTurn(text, g, m.store, ClientSends(m.conns[b], List)).1.toClient ==
               BigEndian(4, 4) + BigEndian(200, 4) + BigEndian(|text(l)|, 8) + BigEndian(0, 8) + BigEndian(0, 8)
               + text(l)
  {
    var first := (a, Upload(name, data), f);
    var pre := [first] + mid;
    FitsBefore(text, r, pre, (b, List, g));
    RunRefines(text, w, r, pre);
    UploadStores(text, r, a, f, name, data);
    RunKeeps(text, RpcStep(text, r, first).0, mid, Key(r.users[a], name));
    FoldOne(Rpcs(text), r, first);
    FoldConcat(Rpcs(text), r, [first], mid);
    l := WorldRun(text, w, pre).0.store.Listing(r.users[a]);
    ListShows(text, w, r, pre, b, g, l);
  }

  // ----- different users do not notice each other

  /** The two stores hold the same for one user. */
  ghost predicate Agree(s: Store, s': Store, user: Bytes) {
    forall k: Key :: k.user == user ==>
      && s.Content(k) == s'.Content(k)
      && (k in s.stale <==> k in s'.stale)
      && (k in s.stale ==> s.stale[k] == s'.stale[k])
  }

  lemma AgreeListing(s: Store, s': Store, user: Bytes)
    requires Agree(s, s', user)
    ensures s.Listing(user) == s'.Listing(user)
  {
    var l, l' := s.Listing(user), s'.Listing(user);
    forall n ensures n in l <==> n in l' {
      assert s.Indexed(Key(user, n)) == s'.Indexed(Key(user, n));
    }
    forall n | n in l && n in l' ensures l[n] == l'[n] {
      assert s.Indexed(Key(user, n)) == s'.Indexed(Key(user, n));
    }
  }

  /** Two stores that agree on a user's files still do after the same operation on them. */
  lemma AgreeEffect(s: Store, s': Store, user: Bytes, op: Op, out: Outcome)
    requires Agree(s, s', user) && Allowed(s, op, out) && Allowed(s', op, out)
    requires forall k :: k in op.Keys() ==> k.user == user
    ensures Agree(Effect(s, op, out), Effect(s', op, out), user)
  {
    forall k | k in op.Keys() ensures s.Content(k) == s'.Content(k) {}
    var m, m' := Effect(s, op, out), Effect(s', op, out);
    forall k: Key | k.user == user
      ensures m.Content(k) == m'.Content(k)
      ensures k in m.stale <==> k in m'.stale
      ensures k in m.stale ==> m.stale[k] == m'.stale[k]
    {
      assert s.Content(k) == s'.Content(k);
    }
  }

  ghost predicate Local(text: Text, fate: Fate, s: Store, s': Store, user: Bytes, c: Command) {
    var (m, u, x) := Meaning(text, fate, s, user, c);
    var (m', u', x') := Meaning(text, fate, s', user, c);
    u == u' && x == x' && Agree(m, m', user)
  }

  lemma UploadLocal(text: Text, fate: Fate, s: Store, s': Store, user: Bytes, file: Bytes, data: Bytes)
    requires Agree(s, s', user)
    ensures Local(text, fate, s, s', user, Upload(file, data))
  {
    if ValidName(file) && fate.canOpen {
      AgreeEffect(s, s', user, Save(Key(user, file), |data|), Saved(data));
    }
  }

  lemma DownloadLocal(text: Text, fate: Fate, s: Store, s': Store, user: Bytes, file: Bytes, canCreate: bool)
    requires Agree(s, s', user)
    ensures Local(text, fate, s, s', user, Download(file, canCreate))
  {
    assert s.Content(Key(user, file)) == s'.Content(Key(user, file));
    assert s.Indexed(Key(user, file)) == s'.Indexed(Key(user, file));
  }

  lemma DeleteLocal(text: Text, fate: Fate, s: Store, s': Store, user: Bytes, file: Bytes)
    requires Agree(s, s', user)
    ensures Local(text, fate, s, s', user, Command.Delete(file))
  {
    var k := Key(user, file);
    assert s.Content(k) == s'.Content(k);
    if ValidName(file) && k in s.files {
      AgreeEffect(s, s', user, Op.Delete(k), Deleted);
    }
  }

  lemma RenameLocal(text: Text, fate: Fate, s: Store, s': Store, user: Bytes, oldName: Bytes, newName: Bytes)
    requires Agree(s, s', user)
    ensures Local(text, fate, s, s', user, Command.Rename(oldName, newName))
  {
    var src, dst := Key(user, oldName), Key(user, newName);
    assert s.Content(src) == s'.Content(src) && s.Content(dst) == s'.Content(dst);
    if src != dst && src in s.files && dst !in s.files {
      AgreeEffect(s, s', user, Op.Rename(src, dst), Renamed);
    }
  }

  /** An operation sees and changes its own user's files only. */
  lemma MeaningLocal(text: Text, fate: Fate, s: Store, s': Store, user: Bytes, c: Command)
    requires Agree(s, s', user)
    ensures Local(text, fate, s, s', user, c)
  {
    match c
    case Upload(file, data) => UploadLocal(text, fate, s, s', user, file, data);
    case Download(file, canCreate) => DownloadLocal(text, fate, s, s', user, file, canCreate);
    case Delete(file) => DeleteLocal(text, fate, s, s', user, file);
    case Rename(oldName, newName) => RenameLocal(text, fate, s, s', user, oldName, newName);
    case List => AgreeListing(s, s', user);
    case Login(_) =>
    case Quit =>
  }

  lemma MeaningFrame(text: Text, fate: Fate, s: Store, user: Bytes, c: Command, other: Bytes)
    requires other != user
    ensures Agree(s, Meaning(text, fate, s, user, c).0, other)
  {
  }

  lemma AgreeEverywhere(s: Store, s': Store)
    requires forall u :: Agree(s, s', u)
    ensures s == s'
  {
    forall k: Key
      ensures k in s.files <==> k in s'.files
      ensures k in s.files && k in s'.files ==> s.files[k] == s'.files[k]
      ensures k in s.stale <==> k in s'.stale
      ensures k in s.stale ==> s.stale[k] == s'.stale[k]
    {
      assert Agree(s, s', k.user);
      assert s.Content(k) == s'.Content(k);
    }
  }

  /** Operations of two different users commute: same store, same answers. */
  lemma MeaningsCommute(text: Text, s: Store, u: Bytes, x: Command, f: Fate, v: Bytes, y: Command, g: Fate)
    requires u != v
    ensures var (su, u', ru) := Meaning(text, f, s, u, x);
            var (sv, v', rv) := Meaning(text, g, s, v, y);
            && Meaning(text, g, su, v, y).1 == v' && Meaning(text, g, su, v, y).2 == rv
            && Meaning(text, f, sv, u, x).1 == u' && Meaning(text, f, sv, u, x).2 == ru
            && Meaning(text, g, su, v, y).0 == Meaning(text, f, sv, u, x).0
  {
    var su, sv := Meaning(text, f, s, u, x).0, Meaning(text, g, s, v, y).0;
    var suv, svu := Meaning(text, g, su, v, y).0, Meaning(text, f, sv, u, x).0;
    MeaningFrame(text, f, s, u, x, v);
    MeaningFrame(text, g, s, v, y, u);
    MeaningLocal(text, g, s, su, v, y);
    MeaningLocal(text, f, s, sv, u, x);
    forall w ensures Agree(suv, svu, w) {
      if w != u { MeaningFrame(text, f, s, u, x, w); MeaningFrame(text, f, sv, u, x, w); }
      if w != v { MeaningFrame(text, g, s, v, y, w); MeaningFrame(text, g, su, v, y, w); }
    }
    AgreeEverywhere(suv, svu);
  }

  lemma FortuneLocal(s: Store, s': Store, user: Bytes, c: Command, after: Bytes)
    requires Agree(s, s', user)
    ensures FortuneOf(s, user, c, after) == FortuneOf(s', user, c, after)
  {
    if c.Download? {
      var k := Key(user, c.file);
      assert s.Content(k) == s'.Content(k) && s.Indexed(k) == s'.Indexed(k);
    }
  }

  lemma PlacedCommutes(r: Rpc, s1: Store, s2: Store, s: Store, i: Sid, f: Fortune, j: Sid, g: Fortune)
    requires i != j
    ensures Placed(Placed(r, s1, i, f), s, j, g) == Placed(Placed(r, s2, j, g), s, i, f)
    ensures j in r.users ==> j in Placed(r, s1, i, f).users && Placed(r, s1, i, f).users[j] == r.users[j]
  {
    assert Placed(Placed(r, s1, i, f), s, j, g).users == Placed(Placed(r, s2, j, g), s, i, f).users;
    assert Placed(Placed(r, s1, i, f), s, j, g).orphans == Placed(Placed(r, s2, j, g), s, i, f).orphans;
  }

  lemma StepsCommute(text: Text, r: Rpc, p: Turn, q: Turn)
    requires p.0 != q.0 && p.0 in r.users && q.0 in r.users && r.users[p.0] != r.users[q.0]
    ensures var (rp, xp) := RpcStep(text, r, p);
            var (rq, xq) := RpcStep(text, r, q);
            RpcStep(text, rp, q) == (RpcStep(text, rq, p).0, xq) && RpcStep(text, rq, p).1 == xp
  {
    var u, v := r.users[p.0], r.users[q.0];
    var (su, u', xp) := Meaning(text, p.2, r.store, u, p.1);
    var (sv, v', xq) := Meaning(text, q.2, r.store, v, q.1);
    MeaningsCommute(text, r.store, u, p.1, p.2, v, q.1, q.2);
    MeaningFrame(text, p.2, r.store, u, p.1, v);
    MeaningFrame(text, q.2, r.store, v, q.1, u);
    FortuneLocal(r.store, su, v, q.1, v');
    FortuneLocal(r.store, sv, u, p.1, u');
    var f, g := FortuneOf(r.store, u, p.1, u'), FortuneOf(r.store, v, q.1, v');
    var last := Meaning(text, q.2, su, v, q.1).0;
    PlacedCommutes(r, su, sv, last, p.0, f, q.0, g);
    PlacedCommutes(r, sv, su, last, q.0, g, p.0, f);
    assert RpcStep(text, r, p) == (Placed(r, su, p.0, f), xp);
    assert RpcStep(text, r, q) == (Placed(r, sv, q.0, g), xq);
  }

  /** A turn of another client leaves a session's user alone. */
  lemma UserStays(text: Text, r: Rpc, p: Turn, i: Sid)
    requires p.0 != i && i in r.users
    ensures i in RpcStep(text, r, p).0.users && RpcStep(text, r, p).0.users[i] == r.users[i]
  {
  }

  lemma RunSnoc(text: Text, r: Rpc, pre: seq<Turn>, p: Turn)
    ensures RpcRun(text, r, pre + [p]).0 == RpcStep(text, RpcRun(text, r, pre).0, p).0
  {
    assert (pre + [p])[..|pre|] == pre;
  }

  ghost predicate TurnFits(text: Text, r: Rpc, before: seq<Turn>, t: Turn) {
    var m := RpcRun(text, r, before).0;
    t.0 in m.users ==> Fits(m.users[t.0], t.1)
  }

  /** Requests that fit in a run fit in the run with the two turns swapped. */
  lemma FitsSwapped(text: Text, r: Rpc, pre: seq<Turn>, p: Turn, q: Turn, post: seq<Turn>)
    requires RunFits(text, r, pre + [p, q] + post)
    requires var m := RpcRun(text, r, pre).0;
             p.0 != q.0 && p.0 in m.users && q.0 in m.users && m.users[p.0] != m.users[q.0]
    ensures RunFits(text, r, pre + [q, p] + post)
  {
    var a, b := pre + [p, q] + post, pre + [q, p] + post;
    forall i | 0 <= i < |b|
      ensures TurnFits(text, r, b[..i], b[i])
    {
      if i < |pre| {
        assert b[..i] == a[..i] && b[i] == a[i];
        assert TurnFits(text, r, a[..i], a[i]);
      } else if i < |pre| + 2 {
        FitsSwappedHere(text, r, pre, p, q, post);
        assert b[..i] == if i == |pre| then pre else pre + [q];
      } else {
        assert TurnFits(text, r, a[..i], a[i]);
        SameStateLater(text, r, pre, p, q, post, i);
      }
    }
  }

  lemma SameStateLater(text: Text, r: Rpc, pre: seq<Turn>, p: Turn, q: Turn, post: seq<Turn>, i: nat)
    requires var m := RpcRun(text, r, pre).0;
             p.0 != q.0 && p.0 in m.users && q.0 in m.users && m.users[p.0] != m.users[q.0]
    requires |pre| + 2 <= i < |pre| + 2 + |post|
    ensures (pre + [q, p] + post)[i] == (pre + [p, q] + post)[i]
    ensures RpcRun(text, r, (pre + [q, p] + post)[..i]).0 == RpcRun(text, r, (pre + [p, q] + post)[..i]).0
  {
    var rest := post[..i - |pre| - 2];
    StepsCommute(text, RpcRun(text, r, pre).0, p, q);
    FoldSwap(Rpcs(text), r, pre, p, q, rest);
    assert (pre + [p, q] + post)[..i] == pre + [p, q] + rest;
    assert (pre + [q, p] + post)[..i] == pre + [q, p] + rest;
  }

  lemma FitsSwappedHere(text: Text, r: Rpc, pre: seq<Turn>, p: Turn, q: Turn, post: seq<Turn>)
    requires RunFits(text, r, pre + [p, q] + post)
    requires var m := RpcRun(text, r, pre).0; p.0 != q.0 && p.0 in m.users && q.0 in m.users
    ensures TurnFits(text, r, pre, q) && TurnFits(text, r, pre + [q], p)
  {
    var a, n, m := pre + [p, q] + post, |pre|, RpcRun(text, r, pre).0;
    assert a[..n] == pre && a[n] == p && a[..n + 1] == pre + [p] && a[n + 1] == q;
    assert TurnFits(text, r, a[..n], a[n]) && TurnFits(text, r, a[..n + 1], a[n + 1]);
    RunSnoc(text, r, pre, p);
    RunSnoc(text, r, pre, q);
    UserStays(text, m, p, q.0);
    UserStays(text, m, q, p.0);
  }

  /**
    Users commute over the wire: two neighbouring operations of sessions logged in as
    different users can be swapped anywhere in a serial run. Every client hears the same
    answers and the server ends with the same store.
  */
  lemma SwapUsers(text: Text, w: World, r: Rpc, pre: seq<Turn>, p: Turn, q: Turn, post: seq<Turn>)
    requires Mirrors(w, r) && Sound(r.store) && ShortText(text)
    requires RunFits(text, r, pre + [p, q] + post)
    requires var m := RpcRun(text, r, pre).0;
             p.0 != q.0 && p.0 in m.users && q.0 in m.users && m.users[p.0] != m.users[q.0]
    ensures var (w1, hs) := WorldRun(text, w, pre + [p, q] + post);
            var (w2, gs) := WorldRun(text, w, pre + [q, p] + post);
            w1.store == w2.store && Exchanged(hs, gs, |pre|)
  {
    RunRefines(text, w, r, pre + [p, q] + post);
    FitsSwapped(text, r, pre, p, q, post);
    RunRefines(text, w, r, pre + [q, p] + post);
    StepsCommute(text, RpcRun(text, r, pre).0, p, q);
    FoldSwap(Rpcs(text), r, pre, p, q, post);
  }
}
