/** What the answers of a session say, by number and by the files before and after. */
module Answers {
  import opened Basics
  import opened Paths
  import opened AtomicStore
  import opened Wire
  import opened Network
  import opened Protocol
  import opened Session
  import opened Client
  import opened Lockstep

  // ----- frames, byte by byte

  lemma OneDigit(x: byte)
    ensures BigEndian(x, 4) == [0, 0, 0, x]
  {
    assert BigEndian(0, 1) == [0] && BigEndian(0, 2) == [0, 0] && BigEndian(0, 3) == [0, 0, 0];
  }

  /** Every request as it lies on the wire: command and status, the lengths of payload, file name and
      user name, then user name, file name and payload. A rename sends the old name as file name and
      the new one as payload. */
  lemma RequestFrame(user: Bytes, c: Command)
    ensures Encode(RequestOf(user, c)) ==
            match c
            case Login(name) =>
              [0, 0, 0, 1, 0, 0, 0, 0] + BigEndian(0, 8) + BigEndian(0, 8) + BigEndian(|name|, 8) + name
            case Upload(file, data) =>
              [0, 0, 0, 2, 0, 0, 0, 0] + BigEndian(|data|, 8) + BigEndian(|file|, 8) + BigEndian(|user|, 8)
              + user + file + data
            case Download(file, _) =>
              [0, 0, 0, 3, 0, 0, 0, 0] + BigEndian(0, 8) + BigEndian(|file|, 8) + BigEndian(|user|, 8)
              + user + file
            case List =>
              [0, 0, 0, 4, 0, 0, 0, 0] + BigEndian(0, 8) + BigEndian(0, 8) + BigEndian(|user|, 8) + user
            case Delete(file) =>
              [0, 0, 0, 5, 0, 0, 0, 0] + BigEndian(0, 8) + BigEndian(|file|, 8) + BigEndian(|user|, 8)
              + user + file
            case Rename(oldName, newName) =>
              [0, 0, 0, 6, 0, 0, 0, 0] + BigEndian(|newName|, 8) + BigEndian(|oldName|, 8)
              + BigEndian(|user|, 8) + user + oldName + newName
            case Quit =>
              [0, 0, 0, 7, 0, 0, 0, 0] + BigEndian(0, 8) + BigEndian(0, 8) + BigEndian(0, 8)
  {
    match c
    case Login(name) => Framed(1, name, [], []);
    case Upload(file, data) => Framed(2, user, file, data);
    case Download(file, _) => Framed(3, user, file, []);
    case List => Framed(4, user, [], []);
    case Delete(file) => Framed(5, user, file, []);
    case Rename(oldName, newName) => Framed(6, user, oldName, newName);
    case Quit => Framed(7, [], [], []);
  }

  lemma Framed(code: byte, user: Bytes, file: Bytes, payload: Bytes)
    ensures var head := [0, 0, 0, code, 0, 0, 0, 0] + BigEndian(|payload|, 8) + BigEndian(|file|, 8)
                        + BigEndian(|user|, 8);
            && Encode(Request(code, user, file, payload)) == head + user + file + payload
            && (payload == [] ==> head + user + file + payload == head + user + file)
            && (file == [] && payload == [] ==> head + user + file + payload == head + user)
            && (user == [] && file == [] && payload == [] ==> head + user + file + payload == head)
  {
    OneDigit(code);
    OneDigit(0);
    assert [0, 0, 0, code] + [0, 0, 0, 0] == [0, 0, 0, code, 0, 0, 0, 0];
    var head := EncodeHeader(Request(code, user, file, payload).hdr);
    Trailing(head, user, file, payload);
  }

  lemma Trailing(h: Bytes, a: Bytes, b: Bytes, c: Bytes)
    ensures c == [] ==> h + a + b + c == h + a + b
    ensures b == [] && c == [] ==> h + a + b + c == h + a
    ensures a == [] && b == [] && c == [] ==> h + a + b + c == h
  {
  }

  /** And every reply. */
  lemma ReplyFrame(cmd: nat, status: nat, body: Bytes)
    ensures ReplyBytes(cmd, Reply(status, body)) ==
            BigEndian(cmd, 4) + BigEndian(status, 4) + BigEndian(|body|, 8) + BigEndian(0, 8)
            + BigEndian(0, 8) + body
  {
  }

  // ----- what one request is answered

  /** LOGIN, QUIT, unknown commands, and the five commands that need a login without one. */
  lemma PlainAnswers(text: Text, fate: Fate, s: Store, user: Bytes, m: Message)
    ensures var a, cmd := Serve(text, fate, s, user, m), m.hdr.command;
            && (cmd == 1 ==>
                  a == Answer(s, m.username, Reply(200, Ascii("Welcome, ") + m.username + Ascii("!")), true))
            && (cmd == 7 ==> a == Answer(s, user, Reply(200, Ascii("Goodbye!")), false))
            && (cmd == 0 || cmd > 7 ==>
                  a == Answer(s, user, Reply(400, Ascii("Unknown or unsupported command: UNKNOWN")), true))
            && (2 <= cmd <= 6 && user == [] ==>
                  a == Answer(s, user, Reply(400, Ascii("Must LOGIN first")), true))
  {
  }

  /** A login byte by byte: the frame the client sends, what the server sends back, and what it leaves. */
  lemma LoginBytes(text: Text, fate: Fate, s: Store, user: Bytes, name: Bytes, rest: Bytes)
    requires |name| < U64
    ensures var welcome := Ascii("Welcome, ") + name + Ascii("!");
            ServeNext(text, fate, s, user,
                      [0, 0, 0, 1, 0, 0, 0, 0] + BigEndian(0, 8) + BigEndian(0, 8) + BigEndian(|name|, 8) + name + rest)
            == Some((Answer(s, name, Reply(200, welcome), true),
                     [0, 0, 0, 1, 0, 0, 0, 200] + BigEndian(|welcome|, 8) + BigEndian(0, 8) + BigEndian(0, 8) + welcome,
                     rest))
  {
    var m := RequestOf(user, Login(name));
    var welcome := Ascii("Welcome, ") + name + Ascii("!");
    RequestFrame(user, Login(name));
    PlainAnswers(text, fate, s, user, m);
    NextFrame(text, fate, s, user, m, rest);
    OneDigit(1);
    OneDigit(200);
    assert [0, 0, 0, 1] + [0, 0, 0, 200] == [0, 0, 0, 1, 0, 0, 0, 200];
    ReplyFrame(1, 200, welcome);
  }

  /** An upload answers 201 and is stored, or 500 and nothing happens. */
  lemma UploadAnswered(text: Text, fate: Fate, s: Store, user: Bytes, m: Message)
    requires m.hdr.command == 2 && user != []
    ensures var a, k := Serve(text, fate, s, user, m), Key(user, m.filename);
            && a.reply.Reply? && a.user == user && a.goesOn
            && a.reply.status == (if ValidName(m.filename) && fate.canOpen then 201 else 500)
            && (a.reply.status == 201 ==>
                  && a.store.Content(k) == Some(m.payload)
                  && forall j :: j != k ==> a.store.Content(j) == s.Content(j) && a.store.Indexed(j) == s.Indexed(j))
            && (a.reply.status != 201 ==> a.store == s)
  {
  }

  /** An upload that breaks off over the network answers 500; the file that was there is gone, its
      index entry is not. */
  lemma TruncatedAnswered(fate: Fate, s: Store, user: Bytes, filename: Bytes, size: nat)
    requires s.Valid()
    ensures var a, k := ServeTruncated(fate, s, user, filename, size), Key(user, filename);
            && a.user == user && a.goesOn
            && a.reply == (if user == [] then Reply(400, Ascii("Must LOGIN first"))
                           else Reply(500, Ascii("Failed to save file.")))
            && (if user != [] && ValidName(filename) && fate.canOpen
                then && a.store.Content(k) == None && a.store.Indexed(k) == s.Indexed(k)
                     && forall j :: j != k ==>
                          a.store.Content(j) == s.Content(j) && a.store.Indexed(j) == s.Indexed(j)
                else a.store == s)
  {
  }

  /** A download answers the file, 404, or breaks off; it changes nothing. */
  lemma DownloadAnswered(text: Text, fate: Fate, s: Store, user: Bytes, m: Message)
    requires m.hdr.command == 3 && user != []
    ensures var a, k := Serve(text, fate, s, user, m), Key(user, m.filename);
            && a.store == s && a.user == user
            && (forall data :: a.reply == Reply(200, data) <==>
                  ValidName(m.filename) && s.Content(k) == Some(data))
            && (a.reply == Reply(404, Ascii("File not found.")) <==> s.Indexed(k) == None)
            && (a.reply.Reply? ==> a.goesOn && (a.reply.status == 200 || a.reply.status == 404))
            && (a.reply.Broken? ==> !a.goesOn && s.Indexed(k) == Some(a.reply.announced))
  {
  }

  /** A list answers "(Empty)" when no name of the user is indexed, and otherwise the text of exactly
      the indexed names with their sizes. */
  lemma ListAnswered(text: Text, fate: Fate, s: Store, user: Bytes, m: Message, l: map<Bytes, nat>)
    requires m.hdr.command == 4 && user != []
    requires forall n :: s.Indexed(Key(user, n)) == if n in l then Some(l[n]) else None
    ensures Serve(text, fate, s, user, m) ==
            Answer(s, user, Reply(200, if l == map[] then Ascii("(Empty)") else text(l)), true)
    ensures l == map[] <==> forall n :: s.Indexed(Key(user, n)) == None
  {
    var listing := s.Listing(user);
    forall n
      ensures n in l <==> n in listing
      ensures n in l && n in listing ==> l[n] == listing[n]
    {
      assert s.Indexed(Key(user, n)) == if n in l then Some(l[n]) else None;
    }
    assert l == listing;
    if n :| n in l {
      assert s.Indexed(Key(user, n)).Some?;
    }
  }

  /** When texts of names never read "(Empty)", only users without indexed names are told so. */
  lemma EmptyExactly(text: Text, fate: Fate, s: Store, user: Bytes, m: Message)
    requires m.hdr.command == 4 && user != []
    requires forall l: map<Bytes, nat> :: l != map[] ==> text(l) != Ascii("(Empty)")
    ensures Serve(text, fate, s, user, m).reply == Reply(200, Ascii("(Empty)")) <==>
            forall n :: s.Indexed(Key(user, n)) == None
  {
    ListAnswered(text, fate, s, user, m, s.Listing(user));
  }

  /** A deletion answers 200 and the file is gone, or 404 and nothing happens. */
  lemma DeleteAnswered(text: Text, fate: Fate, s: Store, user: Bytes, m: Message)
    requires m.hdr.command == 5 && user != [] && s.Valid()
    ensures var a, k := Serve(text, fate, s, user, m), Key(user, m.filename);
            && a.reply.Reply? && a.user == user && a.goesOn
            && a.reply.status == (if ValidName(m.filename) && !fate.throws && s.Content(k).Some? then 200 else 404)
            && (a.reply.status == 200 ==>
                  && a.store.Content(k) == None && a.store.Indexed(k) == None
                  && forall j :: j != k ==> a.store.Content(j) == s.Content(j) && a.store.Indexed(j) == s.Indexed(j))
            && (a.reply.status != 200 ==> a.store == s)
  {
  }

  /** A rename to another name answers 200 and the file has moved to a name that was free, or 404 and
      nothing happens; a rename to the same name answers 200 and nothing happens. */
  lemma RenameAnswered(text: Text, fate: Fate, s: Store, user: Bytes, m: Message)
    requires m.hdr.command == 6 && user != [] && s.Valid()
    ensures var a := Serve(text, fate, s, user, m);
            var src, dst := Key(user, m.filename), Key(user, m.payload);
            && a.reply.Reply? && a.user == user && a.goesOn
            && a.reply.status ==
               (if ValidName(m.filename) && ValidName(m.payload)
                   && (m.filename == m.payload
                       || (!fate.throws && s.Content(src).Some? && s.Content(dst) == None)) then 200 else 404)
            && (a.reply.status != 200 || m.filename == m.payload ==> a.store == s)
            && (a.reply.status == 200 && m.filename != m.payload ==>
                  && a.store.Content(src) == None && a.store.Indexed(src) == None
                  && a.store.Content(dst) == s.Content(src)
                  && forall j :: j != src && j != dst ==>
                       a.store.Content(j) == s.Content(j) && a.store.Indexed(j) == s.Indexed(j))
  {
  }

  /** A name with two adjacent dots is refused by every command that takes one. */
  lemma DotsAnswered(text: Text, fate: Fate, s: Store, user: Bytes, m: Message, i: nat)
    requires user != [] && s.Valid()
    requires (i < |m.filename| - 1 && m.filename[i] == 46 && m.filename[i + 1] == 46)
          || (m.hdr.command == 6 && i < |m.payload| - 1 && m.payload[i] == 46 && m.payload[i + 1] == 46)
    ensures var a := Serve(text, fate, s, user, m);
            2 <= m.hdr.command <= 6 && m.hdr.command != 4 ==>
              a.store == s && (a.reply.Reply? ==> a.reply.status == if m.hdr.command == 2 then 500 else 404)
  {
    if i < |m.filename| - 1 && m.filename[i] == 46 && m.filename[i + 1] == 46 {
      DotsInvalid(m.filename, i);
    } else {
      DotsInvalid(m.payload, i);
    }
  }

  // ----- what a client hears

  /** The store and the client's boolean after an exchange. */
  ghost predicate Ends(text: Text, fate: Fate, s: Store, c: Conn, cmd: Command, s': Store, r: Result) {
    var (last, c', h) := Exchange(text, fate, s, c, cmd);
    last == s' && h == Heard(r)
  }

  lemma EndsWith(text: Text, fate: Fate, s: Store, c: Conn, cmd: Command) returns (a: Answer)
    requires Talking(c) && Fits(c.user, cmd) && Sized(s) && ShortText(text) && Sends(c.user, cmd)
    ensures a == Serve(text, fate, s, c.user, RequestOf(c.user, cmd))
    ensures Ends(text, fate, s, c, cmd, a.store, ResultOf(cmd, a.reply))
  {
    a := Serve(text, fate, s, c.user, RequestOf(c.user, cmd));
    LockstepExactly(text, fate, s, c, cmd);
  }

  /** An upload is reported a success exactly when it is stored; otherwise nothing has changed. */
  lemma UploadHeard(text: Text, fate: Fate, s: Store, c: Conn, file: Bytes, data: Bytes)
    requires Talking(c) && Fits(c.user, Upload(file, data)) && s.Valid() && Sized(s) && ShortText(text)
    ensures var (s', c', h) := Exchange(text, fate, s, c, Upload(file, data));
            && (h == Heard(Result(true, None)) || h == Heard(Result(false, None)))
            && (h == Heard(Result(true, None)) <==> c.user != [] && fate.canOpen && ValidName(file))
            && (h == Heard(Result(true, None)) ==> s'.Content(Key(c.user, file)) == Some(data))
            && (h == Heard(Result(false, None)) ==> s' == s)
  {
    if c.user != [] {
      var a := EndsWith(text, fate, s, c, Upload(file, data));
      UploadAnswered(text, fate, s, c.user, RequestOf(c.user, Upload(file, data)));
    }
  }

  /** A download changes nothing. It is reported a success exactly when a logged-in user's local file
      could be created and the file is there under a name that is accepted, with its bytes; or when its
      index entry is all that is left, with size 0. */
  lemma DownloadHeard(text: Text, fate: Fate, s: Store, c: Conn, file: Bytes, canCreate: bool)
    requires Talking(c) && Fits(c.user, Download(file, canCreate)) && Sized(s) && ShortText(text)
    ensures var (s', c', h) := Exchange(text, fate, s, c, Download(file, canCreate));
            var k := Key(c.user, file);
            && s' == s
            && h == if c.user != [] && canCreate && ValidName(file) && s.Content(k).Some?
                    then Heard(Result(true, s.Content(k)))
                    else if c.user != [] && canCreate && s.Indexed(k) == Some(0) then Heard(Result(true, Some([])))
                    else Heard(Result(false, None))
  {
    if c.user != [] {
      var cmd := Download(file, canCreate);
      var a := EndsWith(text, fate, s, c, cmd);
      DownloadAnswered(text, fate, s, c.user, RequestOf(c.user, cmd));
    }
  }

  /** A deletion is reported a success exactly when a file was there and is not any more. */
  lemma DeleteHeard(text: Text, fate: Fate, s: Store, c: Conn, file: Bytes)
    requires Talking(c) && Fits(c.user, Command.Delete(file)) && s.Valid() && Sized(s) && ShortText(text)
    ensures var (s', c', h) := Exchange(text, fate, s, c, Command.Delete(file));
            var k := Key(c.user, file);
            && (h == Heard(Result(true, None)) || (h == Heard(Result(false, None)) && s' == s))
            && (h == Heard(Result(true, None)) <==> s.Content(k).Some? && s'.Content(k) == None)
            && (s.Content(k).Some? ==>
                  (h == Heard(Result(true, None)) <==> c.user != [] && ValidName(file) && !fate.throws))
  {
    var cmd := Command.Delete(file);
    var a := EndsWith(text, fate, s, c, cmd);
    if c.user != [] {
      DeleteAnswered(text, fate, s, c.user, RequestOf(c.user, cmd));
    } else {
      PlainAnswers(text, fate, s, c.user, RequestOf(c.user, cmd));
    }
  }

  /** A rename to another name is reported a success exactly when the file has moved from the old name to
      the new one, which was free; otherwise, onto an existing file in particular, nothing has changed. */
  lemma RenameHeard(text: Text, fate: Fate, s: Store, c: Conn, oldName: Bytes, newName: Bytes)
    requires Talking(c) && Fits(c.user, Command.Rename(oldName, newName)) && s.Valid() && Sized(s) && ShortText(text)
    requires oldName != newName
    ensures var (s', c', h) := Exchange(text, fate, s, c, Command.Rename(oldName, newName));
            var src, dst := Key(c.user, oldName), Key(c.user, newName);
            && (h == Heard(Result(true, None)) || (h == Heard(Result(false, None)) && s' == s))
            && (h == Heard(Result(true, None)) <==>
                  && s.Content(src).Some? && s.Content(dst) == None
                  && s'.Content(src) == None && s'.Content(dst) == s.Content(src))
            && (s.Content(src).Some? && s.Content(dst) == None ==>
                  (h == Heard(Result(true, None)) <==>
                   c.user != [] && ValidName(oldName) && ValidName(newName) && !fate.throws))
  {
    var cmd := Command.Rename(oldName, newName);
    var a := EndsWith(text, fate, s, c, cmd);
    if c.user != [] {
      RenameAnswered(text, fate, s, c.user, RequestOf(c.user, cmd));
    } else {
      PlainAnswers(text, fate, s, c.user, RequestOf(c.user, cmd));
    }
  }

  /** LOGIN and QUIT always succeed, LIST exactly with a login; none of them touches a file. */
  lemma OthersHeard(text: Text, fate: Fate, s: Store, c: Conn, cmd: Command)
    requires Talking(c) && Fits(c.user, cmd) && Sized(s) && ShortText(text)
    requires cmd.Login? || cmd.List? || cmd.Quit?
    ensures var (s', c', h) := Exchange(text, fate, s, c, cmd);
            && s' == s && h == Heard(Result(!cmd.List? || c.user != [], None))
            && (cmd.Login? ==> Talking(c') && c'.user == cmd.name)
            && (cmd.List? ==> Talking(c') && c'.user == c.user)
            && (cmd.Quit? ==> !c'.connected && !c'.serving)
  {
    var m := RequestOf(c.user, cmd);
    LockstepExactly(text, fate, s, c, cmd);
    PlainAnswers(text, fate, s, c.user, m);
    if cmd.List? && c.user != [] {
      ListAnswered(text, fate, s, c.user, m, s.Listing(c.user));
    }
  }
}
