/** Client and server together, over the bytes between them. */
module Lockstep {
  import opened Basics
  import opened Paths
  import opened AtomicStore
  import opened Wire
  import opened Network
  import opened Protocol
  import opened Session
  import opened Client

  /** One connection: the client's and the server's idea of the user, whether each end is
      still there, and the bytes under way in each direction. */
  datatype Conn = Conn(
    user: Bytes, connected: bool, session: Bytes, serving: bool, toServer: Bytes, toClient: Bytes)

  /** Both ends are there, agree on the user, and stand at a frame boundary. */
  predicate Talking(c: Conn) {
    c.connected && c.serving && c.user == c.session && c.toServer == [] && c.toClient == []
  }

  function UserFor(user: Bytes, cmd: Command): Bytes {
    if cmd.Login? then cmd.name else user
  }

  function ClientSends(c: Conn, cmd: Command): Conn {
    c.(user := UserFor(c.user, cmd), toServer := c.toServer + Encode(RequestOf(c.user, cmd)))
  }

  /** The server answers every complete request it finds, then waits. */
  function ServerTurn(text: Text, fate: Fate, s: Store, c: Conn): (Store, Conn)
    decreases |c.toServer|
  {
    if !c.serving || Parse(c.toServer).None? then (s, c)
    else
      match ServeNext(text, fate, s, c.session, c.toServer)
      case None => (s, c)
      case Some((a, sent, rest)) =>
        if |rest| >= |c.toServer| then (s, c)
        else ServerTurn(text, fate, a.store,
               c.(session := a.user, serving := a.goesOn, toServer := rest, toClient := c.toClient + sent))
  }

  datatype Heard = Heard(result: Result) | Hangs

  /** The client reads its reply; when too few bytes come it fails if the server has closed
      the connection, and waits for ever otherwise. */
  function ClientReceives(c: Conn, cmd: Command): (Conn, Heard) {
    match Consume(cmd, c.toClient)
    case Some((r, rest)) => (c.(toClient := rest, connected := !cmd.Quit?), Heard(r))
    case None =>
      if c.serving then (c, Hangs)
      else (c.(toClient := [], connected := false), Heard(Result(cmd.Quit?, None)))
  }

  /** One client operation and everything it sets in motion. */
  function Exchange(text: Text, fate: Fate, s: Store, c: Conn, cmd: Command): (Store, Conn, Heard) {
    if !c.connected || !Sends(c.user, cmd) then (s, c, Heard(FAILED))
    else
      var (s', c') := ServerTurn(text, fate, s, ClientSends(c, cmd));
      var (c'', h) := ClientReceives(c', cmd);
      (s', c'', h)
  }

  // ----- the meaning of an operation, without bytes

  function ResultOf(cmd: Command, r: Reply): Result {
    match r
    case Reply(status, body) =>
      if !cmd.Download? then Result(cmd.Quit? || Good(status), None)
      else if status != OK || !cmd.canCreate then FAILED
      else Result(true, Some(body))
    case Broken(n) =>
      if n == 0 && cmd.Download? && cmd.canCreate then Result(true, Some([])) else FAILED
  }

  function Meaning(text: Text, fate: Fate, s: Store, user: Bytes, cmd: Command): (Store, Bytes, Result) {
    if !Sends(user, cmd) then (s, user, FAILED)
    else
      var a := Serve(text, fate, s, user, RequestOf(user, cmd));
      (a.store, a.user, ResultOf(cmd, a.reply))
  }

  /** A download whose index entry has no readable file behind it. */
  predicate Breaks(s: Store, user: Bytes, cmd: Command) {
    && cmd.Download? && user != []
    && s.Indexed(Key(user, cmd.file)).Some?
    && !(ValidName(cmd.file) && Key(user, cmd.file) in s.files)
  }

  /** The reply fits in a frame, and only a download breaks off. */
  predicate ReplyOk(cmd: Command, r: Reply) {
    match r
    case Reply(status, body) => status < U32 && |body| < U64
    case Broken(n) => n < U64 && cmd.Download?
  }

  lemma ReplyFits(text: Text, fate: Fate, s: Store, user: Bytes, cmd: Command)
    requires Sized(s) && ShortText(text) && Fits(user, cmd)
    ensures ReplyOk(cmd, Serve(text, fate, s, user, RequestOf(user, cmd)).reply)
  {
    if cmd.Download? {
      var k := Key(user, cmd.file);
      assert s.Indexed(k).Some? ==> s.Indexed(k).value < ABSENT;
    }
  }

  /** What the client reads is what the server meant. */
  lemma ReplyRead(cmd: Command, user: Bytes, r: Reply)
    requires ReplyOk(cmd, r)
    ensures var bytes := ReplyBytes(RequestOf(user, cmd).hdr.command, r);
            match r
            case Reply(_, _) => Consume(cmd, bytes) == Some((ResultOf(cmd, r), []))
            case Broken(n) =>
              if n == 0 then Consume(cmd, bytes) == Some((ResultOf(cmd, r), []))
              else Consume(cmd, bytes).None?
  {
    var code := RequestOf(user, cmd).hdr.command;
    assert code < U32;
    match r
    case Reply(status, body) => ReplyParses(code, status, body);
    case Broken(n) => HeaderParses(code, n);
  }

  lemma ReplyParses(code: nat, status: nat, body: Bytes)
    requires code < U32 && status < U32 && |body| < U64
    ensures Parse(ReplyBytes(code, Reply(status, body)))
            == Some((Message(Header(code, status, |body|, 0, 0), [], [], body), []))
  {
    var m := Message(Header(code, status, |body|, 0, 0), [], [], body);
    ParseEncode(m, []);
    assert Encode(m) + [] == ReplyBytes(code, Reply(status, body));
  }

  /** A header alone is a whole frame only if it announces nothing. */
  lemma HeaderParses(code: nat, n: nat)
    requires code < U32 && n < U64
    ensures Parse(ReplyBytes(code, Broken(n)))
            == if n == 0 then Some((Message(Header(code, OK, 0, 0, 0), [], [], []), [])) else None
  {
    var h := Header(code, OK, n, 0, 0);
    MetaRoundTrip(h, [], [], []);
    assert EncodeHeader(h) + [] + [] + [] == ReplyBytes(code, Broken(n));
  }

  /** The server's turn after the client's request comes to the answer `a`. */
  ghost predicate Turned(text: Text, fate: Fate, s: Store, c: Conn, cmd: Command, a: Answer) {
    ServerTurn(text, fate, s, ClientSends(c, cmd)) ==
    (a.store, Conn(UserFor(c.user, cmd), true, a.user, a.goesOn, [],
                   ReplyBytes(RequestOf(c.user, cmd).hdr.command, a.reply)))
  }

  lemma TurnIsServe(text: Text, fate: Fate, s: Store, c: Conn, cmd: Command)
    requires Talking(c) && Fits(c.user, cmd)
    ensures Turned(text, fate, s, c, cmd, Serve(text, fate, s, c.user, RequestOf(c.user, cmd)))
  {
    var m := RequestOf(c.user, cmd);
    RequestMatches(c.user, cmd);
    ParseEncode(m, []);
    var c1 := ClientSends(c, cmd);
    assert c1.toServer == Encode(m) && Encode(m) + [] == Encode(m);
    assert [] + ReplyBytes(m.hdr.command, Serve(text, fate, s, c.user, m).reply)
        == ReplyBytes(m.hdr.command, Serve(text, fate, s, c.user, m).reply);
  }

  /** The exchange once the server's answer `a` is known. */
  lemma ExchangeAnswer(text: Text, fate: Fate, s: Store, c: Conn, cmd: Command, a: Answer)
    requires Talking(c) && Sends(c.user, cmd)
    requires Turned(text, fate, s, c, cmd, a)
    requires ReplyOk(cmd, a.reply)
    requires a.goesOn <==> !cmd.Quit? && !a.reply.Broken?
    requires a.user == UserFor(c.user, cmd)
    ensures var (s', c', h) := Exchange(text, fate, s, c, cmd);
            && s' == a.store && h == Heard(ResultOf(cmd, a.reply))
            && c'.toServer == [] && c'.toClient == []
            && (Talking(c') <==> !cmd.Quit? && !a.reply.Broken?)
            && (Talking(c') ==> c'.user == a.user)
            && (cmd.Quit? ==> !c'.connected && !c'.serving)
            && (a.reply.Broken? ==>
                  !c'.serving && c'.user == c.user && (c'.connected <==> a.reply.announced == 0))
  {
    ReplyRead(cmd, c.user, a.reply);
  }

  lemma AnswerKnown(text: Text, fate: Fate, s: Store, c: Conn, cmd: Command) returns (a: Answer)
    requires Talking(c) && Sends(c.user, cmd) && Fits(c.user, cmd) && Sized(s) && ShortText(text)
    ensures Turned(text, fate, s, c, cmd, a) && ReplyOk(cmd, a.reply)
    ensures a.goesOn <==> !cmd.Quit? && !a.reply.Broken?
    ensures a.reply.Broken? <==> Breaks(s, c.user, cmd)
    ensures a.reply.Broken? ==> s.Indexed(Key(c.user, cmd.file)) == Some(a.reply.announced)
    ensures a.user == UserFor(c.user, cmd)
    ensures Meaning(text, fate, s, c.user, cmd) == (a.store, a.user, ResultOf(cmd, a.reply))
  {
    a := Serve(text, fate, s, c.user, RequestOf(c.user, cmd));
    TurnIsServe(text, fate, s, c, cmd);
    ReplyFits(text, fate, s, c.user, cmd);
    ServeFlow(text, fate, s, c.user, RequestOf(c.user, cmd));
    BrokenExactly(text, fate, s, c.user, RequestOf(c.user, cmd));
  }

  /**
    Lockstep. An operation on a connection at a frame boundary does to the store and answers
    to the user what the session means, never hangs, and leaves no byte in either direction.
    Both ends are still talking afterwards exactly when the client has not quit and the
    download, if it was one, did not hit a stale entry. When it did the server is gone, and the
    client has noticed unless the stale size was 0.
  */
  lemma LockstepExactly(text: Text, fate: Fate, s: Store, c: Conn, cmd: Command)
    requires Talking(c) && Fits(c.user, cmd) && Sized(s) && ShortText(text)
    ensures var (s', c', h) := Exchange(text, fate, s, c, cmd);
            var (meant, user, result) := Meaning(text, fate, s, c.user, cmd);
            && s' == meant && h == Heard(result)
            && c'.toServer == [] && c'.toClient == []
            && (Talking(c') <==> !cmd.Quit? && !Breaks(s, c.user, cmd))
            && (Talking(c') ==> c'.user == user)
            && (cmd.Quit? ==> !c'.connected && !c'.serving)
            && (Breaks(s, c.user, cmd) ==>
                  && !c'.serving && c'.user == c.user
                  && (c'.connected <==> s.Indexed(Key(c.user, cmd.file)) == Some(0)))
  {
    if Sends(c.user, cmd) {
      var a := AnswerKnown(text, fate, s, c, cmd);
      ExchangeAnswer(text, fate, s, c, cmd, a);
    }
  }

  /** An operation on a connection whose server is gone: the client hears a failure and closes
      (only QUIT counts as done), and the store does not change. */
  lemma Abandoned(text: Text, fate: Fate, s: Store, c: Conn, cmd: Command)
    requires c.connected && !c.serving && c.user != [] && c.toClient == []
    ensures var (s', c', h) := Exchange(text, fate, s, c, cmd);
            s' == s && !c'.connected && c'.toClient == [] && h == Heard(Result(cmd.Quit?, None))
  {
  }

  lemma MeaningSound(text: Text, fate: Fate, s: Store, user: Bytes, cmd: Command)
    requires s.Valid() && Sized(s) && Fits(user, cmd)
    ensures Meaning(text, fate, s, user, cmd).0.Valid() && Sized(Meaning(text, fate, s, user, cmd).0)
  {
    if Sends(user, cmd) && user != [] {
      match cmd
      case Upload(file, data) =>
        if ValidName(file) && fate.canOpen {
          SizedAfter(s, Save(Key(user, file), |data|), Saved(data));
        }
      case Delete(file) =>
        if ValidName(file) && Key(user, file) in s.files {
          SizedAfter(s, Op.Delete(Key(user, file)), Deleted);
        }
      case Rename(oldName, newName) =>
        var src, dst := Key(user, oldName), Key(user, newName);
        if ValidName(oldName) && ValidName(newName) && src in s.files && dst !in s.files {
          SizedAfter(s, Op.Rename(src, dst), Renamed);
        }
      case _ =>
    }
  }

  // ----- stores without stale entries

  /** No failed overwrite so far, and only names the server accepts. */
  ghost predicate Healthy(s: Store) {
    s.stale == map[] && Sized(s) && forall k :: k in s.files ==> ValidName(k.name)
  }

  lemma HealthyNeverBreaks(s: Store, user: Bytes, cmd: Command)
    requires Healthy(s)
    ensures !Breaks(s, user, cmd)
  {
  }

  lemma HealthyEffect(s: Store, op: Op, out: Outcome)
    requires Healthy(s) && Allowed(s, op, out) && !out.SaveFailed?
    requires op.Save? ==> op.size < ABSENT && ValidName(op.key.name)
    requires op.Rename? ==> ValidName(op.dst.name)
    ensures Healthy(Effect(s, op, out))
  {
    var s' := Effect(s, op, out);
    assert s'.stale == map[];
    forall k | s'.Indexed(k).Some? ensures s'.Indexed(k).value < ABSENT {
      if out.Renamed? && k == op.dst {
        assert s.Indexed(op.src).Some?;
      } else {
        assert s.Indexed(k).Some? || out.Saved?;
      }
    }
  }

  lemma HealthyKept(text: Text, fate: Fate, s: Store, user: Bytes, cmd: Command)
    requires Healthy(s) && Fits(user, cmd)
    ensures Healthy(Meaning(text, fate, s, user, cmd).0)
  {
    if Sends(user, cmd) && user != [] {
      match cmd
      case Upload(file, data) =>
        if ValidName(file) && fate.canOpen {
          HealthyEffect(s, Save(Key(user, file), |data|), Saved(data));
        }
      case Delete(file) =>
        if ValidName(file) && Key(user, file) in s.files {
          HealthyEffect(s, Op.Delete(Key(user, file)), Deleted);
        }
      case Rename(oldName, newName) =>
        var src, dst := Key(user, oldName), Key(user, newName);
        if ValidName(oldName) && ValidName(newName) && src in s.files && dst !in s.files {
          HealthyEffect(s, Op.Rename(src, dst), Renamed);
        }
      case _ =>
    }
  }
}
