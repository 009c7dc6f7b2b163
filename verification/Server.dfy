/** Server::handle_client over a socket, with the FileManager and protocol code underneath. */
module Server {
  import opened Basics
  import opened Paths
  import opened AtomicStore
  import opened Wire
  import opened Network
  import opened Protocol
  import opened Session
  import opened LockManager
  import FM = FileManager
  import FileLocks

  // ----- assumptions on what a client sends

  predicate GoodLogin(p: Platform, reliable: bool, username: Bytes) {
    && (username == [] || PlainUser(p, username))
    && |username| + 16 < if reliable then INT_LIMIT else U64
  }

  /** Whoever logs in has a plain name, and so has every file that is touched. */
  predicate GoodNames(p: Platform, reliable: bool, cmd: nat, username: Bytes, filename: Bytes, payload: Bytes) {
    && (cmd == LOGIN ==> GoodLogin(p, reliable, username))
    && (MayLeak(cmd) ==> PlainIfValid(p, filename))
    && (cmd == RENAME ==> PlainIfValid(p, payload))
  }

  /** A complete request uploads less than the "absent" size and has good names; where the outcome of
      a read is to be known, the lengths read in one piece fit in an int. */
  predicate GoodRequest(p: Platform, reliable: bool, stream: Bytes) {
    && (reliable ==> SmallMeta(stream))
    && (ParseMeta(stream).Some? ==>
          var (h, username, filename, rest) := ParseMeta(stream).value;
          && (reliable && h.command != UPLOAD ==> h.payloadLength < INT_LIMIT)
          && (h.command == UPLOAD ==> PlainIfValid(p, filename))
          && (h.payloadLength <= |rest| ==>
                && (h.command == UPLOAD ==> h.payloadLength < ABSENT)
                && GoodNames(p, reliable, h.command, username, filename, rest[..h.payloadLength])))
  }

  /** The commands that may leave a lock reference behind. */
  predicate MayLeak(cmd: nat) {
    cmd == UPLOAD || cmd == DOWNLOAD || cmd == DELETE || cmd == RENAME
  }

  /**
    Every request of the stream is good, and at most `n` of them may leak. The next request begins
    behind the payload of this one; when an upload fails on a connection that is not reliable, it
    is read from wherever in the payload reading stopped.
  */
  ghost predicate GoodInput(p: Platform, reliable: bool, stream: Bytes, n: nat)
    decreases |stream|
  {
    && GoodRequest(p, reliable, stream)
    && match ParseMeta(stream)
       case None => true
       case Some((h, username, filename, rest)) =>
         && (MayLeak(h.command) ==> n > 0)
         && forall i :: 0 <= i <= |rest| && Resumes(reliable, h, i) && |rest[i..]| < |stream| ==>
              GoodInput(p, reliable, rest[i..], if MayLeak(h.command) then n - 1 else n)
  }

  /** Where in what follows the names the next request may begin. */
  predicate Resumes(reliable: bool, h: Header, i: nat) {
    i == h.payloadLength || (!reliable && h.command == UPLOAD && i < h.payloadLength)
  }

  lemma MetaShorter(stream: Bytes)
    requires ParseMeta(stream).Some?
    ensures ParseMeta(stream).value.0.Fits() && |ParseMeta(stream).value.3| + HEADER_SIZE <= |stream|
  {
    HeaderImage(stream[..HEADER_SIZE]);
  }

  lemma GoodFirst(p: Platform, reliable: bool, stream: Bytes, n: nat)
    requires GoodInput(p, reliable, stream, n)
    ensures GoodRequest(p, reliable, stream)
  {
  }

  lemma GoodNothing(p: Platform, reliable: bool, n: nat)
    ensures GoodInput(p, reliable, [], n)
  {
  }

  /** What is left behind a request that was dealt with is good input again. */
  lemma GoodNext(p: Platform, reliable: bool, stream: Bytes, n: nat, left: Bytes) returns (n': nat)
    requires GoodInput(p, reliable, stream, n) && DealtWith(reliable, stream, left)
    ensures GoodInput(p, reliable, left, n') && |left| < |stream| && LeftBehind(stream, n) == n' + 1
  {
    var (h, username, filename, rest) := ParseMeta(stream).value;
    MetaShorter(stream);
    n' := if MayLeak(h.command) then n - 1 else n;
    if left == [] {
      GoodNothing(p, reliable, n');
    } else {
      var i := |rest| - |left|;
      assert rest[i..] == left && Resumes(reliable, h, i);
    }
  }

  /** `left` is what a served request leaves of the bytes behind its names. */
  predicate Dealt(reliable: bool, h: Header, rest: Bytes, left: Bytes) {
    || (Take(rest, h.payloadLength).Some? && left == Take(rest, h.payloadLength).value.1)
    || (h.command == UPLOAD && reliable && left == [])
    || (h.command == UPLOAD && !reliable && Consumed(left, rest, h.payloadLength))
  }

  predicate DealtWith(reliable: bool, stream: Bytes, left: Bytes) {
    match ParseMeta(stream)
    case None => false
    case Some((h, username, filename, rest)) => Dealt(reliable, h, rest, left)
  }

  /** How many references may still be taken behind a request that found room for `n + 1`. */
  function LeftOver(cmd: nat, n: nat): nat {
    if MayLeak(cmd) then n else n + 1
  }

  function LeftBehind(stream: Bytes, n: nat): nat {
    if ParseMeta(stream).None? then n + 1 else LeftOver(ParseMeta(stream).value.0.command, n)
  }

  // ----- what the handlers' results mean

  /** A download's header and content are one reply, or the beginning of a broken one. */
  lemma DownloadMeans(s: Store, user: Bytes, filename: Bytes, size: nat, success: bool)
    requires s.Indexed(Key(user, filename)) == Some(size)
    requires success == (ValidName(filename) && Key(user, filename) in s.files)
    ensures var a := ServeDownload(s, user, filename);
            && a.store == s && a.goesOn == success
            && ReplyBytes(DOWNLOAD, a.reply) ==
               EncodeHeader(Header(DOWNLOAD, OK, size, 0, 0))
               + (if success then s.files[Key(user, filename)] else [])
  {
  }

  lemma AbsentMeans(s: Store, user: Bytes, filename: Bytes)
    requires s.Indexed(Key(user, filename)).None?
    ensures ServeDownload(s, user, filename) ==
            Answer(s, user, Reply(NOT_FOUND, Ascii("File not found.")), true)
  {
  }

  lemma DeleteMeans(fate: Fate, s: Store, user: Bytes, filename: Bytes, out: Outcome)
    requires var op := Delete(Key(user, filename));
             if ValidName(filename) then Allowed(s, op, out) && (out.Threw? <==> fate.throws)
             else out == Missing
    ensures ServeDelete(fate, s, user, filename) ==
            Answer(if ValidName(filename) then Effect(s, Delete(Key(user, filename)), out) else s, user,
                   if out.Success() then Reply(OK, Ascii("File deleted successfully."))
                   else Reply(NOT_FOUND, Ascii("File not found or cannot be deleted.")), true)
  {
  }

  lemma RenameMeans(fate: Fate, s: Store, user: Bytes, oldName: Bytes, newName: Bytes, out: Outcome,
                    success: bool)
    requires var op := Rename(Key(user, oldName), Key(user, newName));
             if ValidName(oldName) && ValidName(newName) && oldName != newName
             then Allowed(s, op, out) && (out.Threw? <==> fate.throws) else out == Clash
    requires success == (out.Success() || (ValidName(oldName) && oldName == newName))
    ensures ServeRename(fate, s, user, oldName, newName) ==
            Answer(if ValidName(oldName) && ValidName(newName) && oldName != newName
                   then Effect(s, Rename(Key(user, oldName), Key(user, newName)), out) else s, user,
                   if success then Reply(OK, Ascii("Renamed successfully."))
                   else Reply(NOT_FOUND, Ascii("File not found or new name conflicts.")), true)
  {
  }

  lemma ServeByCommand(text: Text, fate: Fate, s: Store, user: Bytes, m: Message)
    requires user != []
    ensures m.hdr.command == DOWNLOAD ==> Serve(text, fate, s, user, m) == ServeDownload(s, user, m.filename)
    ensures m.hdr.command == LIST ==> Serve(text, fate, s, user, m) == ServeList(text, s, user)
    ensures m.hdr.command == DELETE ==> Serve(text, fate, s, user, m) == ServeDelete(fate, s, user, m.filename)
    ensures m.hdr.command == RENAME ==>
      Serve(text, fate, s, user, m) == ServeRename(fate, s, user, m.filename, m.payload)
  {
  }

  /** An upload by the bytes that follow its names. */
  function UploadAnswer(fate: Fate, s: Store, user: Bytes, filename: Bytes, size: nat, rest: Bytes): Answer {
    match Take(rest, size)
    case Some((payload, after)) =>
      if user == [] then Refusal(s, user) else ServeUpload(fate, s, user, filename, payload)
    case None => ServeTruncated(fate, s, user, filename, size)
  }

  lemma UploadMeans(fate: Fate, s: Store, user: Bytes, filename: Bytes, size: nat, rest: Bytes, out: Outcome)
    requires user != []
    requires var op := Save(Key(user, filename), size);
             if !ValidName(filename) then out == Refused
             else && Allowed(s, op, out)
                  && (if fate.canOpen then out.Saved? || out.SaveFailed? else out.Refused?)
    requires out.Success() <==> ValidName(filename) && fate.canOpen && size <= |rest|
    requires out.Saved? ==> size <= |rest| && out.data == rest[..size]
    ensures UploadAnswer(fate, s, user, filename, size, rest) ==
            Answer(if ValidName(filename) then Effect(s, Save(Key(user, filename), size), out) else s, user,
                   if out.Success() then Reply(CREATED, Ascii("File uploaded successfully."))
                   else Reply(INTERNAL_ERROR, Ascii("Failed to save file.")), true)
  {
  }

  lemma UploadIsServe(text: Text, fate: Fate, s: Store, user: Bytes, h: Header, username: Bytes,
                      filename: Bytes, rest: Bytes)
    requires h.command == UPLOAD
    ensures var a := UploadAnswer(fate, s, user, filename, h.payloadLength, rest);
            ServeRest(text, fate, s, user, h, username, filename, rest)
            == Some((a, ReplyBytes(UPLOAD, a.reply),
                     if h.payloadLength <= |rest| then rest[h.payloadLength..] else []))
  {
  }

  /** A reference uses up room for one. */
  lemma SpareOne(counts: map<Bytes, nat>, p: Bytes, n: nat)
    requires n + 1 < FileLocks.COUNT_LIMIT
    requires forall k :: k in counts ==> counts[k] + n + 1 < FileLocks.COUNT_LIMIT
    ensures forall k :: k in Acquired(counts, p) ==> Acquired(counts, p)[k] + n < FileLocks.COUNT_LIMIT
  {
  }

  /** Two references on different paths use up room for one on each. */
  lemma SpareAfter(counts: map<Bytes, nat>, p: Bytes, q: Bytes, n: nat)
    requires n + 1 < FileLocks.COUNT_LIMIT
    requires forall k :: k in counts ==> counts[k] + n + 1 < FileLocks.COUNT_LIMIT
    ensures p != q ==> forall k :: k in Acquired(Acquired(counts, p), q) ==>
              Acquired(Acquired(counts, p), q)[k] + n < FileLocks.COUNT_LIMIT
  {
  }

  lemma Associate(a: Bytes, b: Bytes, c: Bytes)
    ensures a + b + c == a + (b + c)
  {
  }

  class Server {
    const files: FM.FileManager
    const host: Host
    const text: Text
    const calm: bool           // the filesystem creates every file and never throws
    var running: bool
    var activeConnections: int

    constructor (files: FM.FileManager, host: Host, text: Text, calm: bool)
      ensures this.files == files && this.host == host && this.text == text && this.calm == calm
      ensures !running && activeConnections == 0
    {
      this.files, this.host, this.text, this.calm := files, host, text, calm;
      running, activeConnections := false, 0;
    }

    /** `n` more references on any path would stay below 2^32. */
    ghost predicate Spare(n: nat)
      reads this, files, files.locks, files.locks.locks.Values
    {
      && n < FileLocks.COUNT_LIMIT
      && forall p :: p in files.locks.Counts() ==> files.locks.Counts()[p] + n < FileLocks.COUNT_LIMIT
    }

    ghost predicate Kept(n: nat)
      reads this, files, files.index, files.locks, files.locks.locks.Values
    {
      files.Valid() && Sized(files.store) && Spare(n)
    }

    ghost predicate Ready(user: Bytes, n: nat)
      reads this, files, files.index, files.locks, files.locks.locks.Values
    {
      Kept(n) && ShortText(text) && (user == [] || PlainUser(files.platform, user))
    }

    /** What the filesystem will do to the next request. */
    method Fortune() returns (fate: Fate)
      ensures calm ==> fate == CALM
    {
      fate := CALM;
      if !calm {
        var canOpen, throws := *, *;
        fate := Fate(canOpen, throws);
      }
    }

    /** make_response and send_message. */
    method Respond(sock: Socket, cmd: nat, status: nat, body: Bytes) returns (ok: bool)
      requires cmd < U32 && status < U32 && |body| < U64
      modifies sock`outgoing
      ensures ok ==> sock.outgoing == old(sock.outgoing) + ReplyBytes(cmd, Reply(status, body))
      ensures sock.reliable && |body| < INT_LIMIT ==> ok
    {
      var hdr := Header(cmd, status, |body|, 0, 0);
      ok := SendMessage(sock, host, hdr, [], [], Some(body), |body|);
      assert body[..|body|] == body;
      assert old(sock.outgoing) + EncodeHeader(hdr) + [] + [] + body ==
             old(sock.outgoing) + (EncodeHeader(hdr) + body);
    }

    /** What a handler owes: the answer's store, its bytes, its way on. */
    twostate predicate Answered(sock: Socket, cmd: nat, a: Answer, goesOn: bool)
      reads this, files, sock
    {
      && files.store == a.store && goesOn == a.goesOn
      && sock.outgoing == old(sock.outgoing) + ReplyBytes(cmd, a.reply)
    }

    /** The upload of a logged-in user; its payload is still in the socket. */
    method ReceiveUpload(sock: Socket, fate: Fate, user: Bytes, filename: Bytes, size: nat, ghost n: nat)
      returns (success: bool, ghost out: Outcome)
      requires Ready(user, n + 1) && PlainUser(files.platform, user) && (size <= |sock.incoming| ==> size < ABSENT)
      requires PlainIfValid(files.platform, filename)
      modifies files, files.index, files.locks, files.locks.locks.Values, sock`incoming
      ensures files.NewEntries() && Kept(n)
      ensures OneStep(old(files.store), files.store)
      ensures Consumed(sock.incoming, old(sock.incoming), size)
      ensures success == out.Success()
      ensures var op := Save(Key(user, filename), size);
              if !ValidName(filename) then out == Refused && files.store == old(files.store)
              else && Allowed(old(files.store), op, out) && files.store == Effect(old(files.store), op, out)
                   && (if fate.canOpen then out.Saved? || out.SaveFailed? else out.Refused?)
      ensures sock.reliable ==>
        && (success <==> ValidName(filename) && fate.canOpen && size <= |old(sock.incoming)|)
        && sock.incoming == (if size <= |old(sock.incoming)| then old(sock.incoming)[size..] else [])
      ensures out.Saved? ==> size <= |old(sock.incoming)| && out.data == old(sock.incoming)[..size]
    {
      SpareOne(files.locks.Counts(), PathKey(files.platform, Key(user, filename)), n);
      success, out := files.SaveFile(user, filename, sock, size, fate.canOpen);
      if ValidName(filename) {
        SizedAfter(old(files.store), Save(Key(user, filename), size), out);
      }
    }

    method HandleUpload(sock: Socket, fate: Fate, user: Bytes, filename: Bytes, size: nat, ghost n: nat)
      returns (goesOn: bool)
      requires Ready(user, n + 1) && (size <= |sock.incoming| ==> size < ABSENT)
      requires PlainIfValid(files.platform, filename)
      modifies files, files.index, files.locks, files.locks.locks.Values, sock
      ensures files.NewEntries() && Kept(n)
      ensures OneStep(old(files.store), files.store)
      ensures Consumed(sock.incoming, old(sock.incoming), size)
      ensures sock.reliable ==>
        && sock.incoming == (if size <= |old(sock.incoming)| then old(sock.incoming)[size..] else [])
        && Answered(sock, UPLOAD, UploadAnswer(fate, old(files.store), user, filename, size,
                                               old(sock.incoming)), goesOn)
    {
      if user == [] {
        FM.FileManager.DiscardData(sock, size);
        goesOn := Respond(sock, UPLOAD, BAD_REQUEST, Ascii("Must LOGIN first"));
        return;
      }
      ghost var out;
      var success;
      success, out := ReceiveUpload(sock, fate, user, filename, size, n);
      if sock.reliable {
        UploadMeans(fate, old(files.store), user, filename, size, old(sock.incoming), out);
      }
      var status := if success then CREATED else INTERNAL_ERROR;
      var body := if success then Ascii("File uploaded successfully.") else Ascii("Failed to save file.");
      goesOn := Respond(sock, UPLOAD, status, body);
    }

    /** Streams a file and accounts for the reference it may leak. */
    method StreamOut(sock: Socket, user: Bytes, filename: Bytes, ghost n: nat) returns (success: bool)
      requires Ready(user, n + 1) && PlainUser(files.platform, user)
      requires PlainIfValid(files.platform, filename)
      modifies files.locks, files.locks.locks.Values, sock`outgoing
      ensures files.NewEntries() && Kept(n) && files.store == old(files.store)
      ensures sock.reliable ==>
        var k := Key(user, filename);
        && success == (ValidName(filename) && k in files.store.files)
        && sock.outgoing == old(sock.outgoing) + (if success then files.store.files[k] else [])
    {
      SpareOne(files.locks.Counts(), PathKey(files.platform, Key(user, filename)), n);
      ghost var out;
      success, out := files.StreamFileToSocket(user, filename, sock);
    }

    /** The header of a download, with the size read from the index. */
    method Announce(sock: Socket, size: nat) returns (ok: bool)
      requires size < ABSENT
      modifies sock`outgoing
      ensures ok ==> sock.outgoing == old(sock.outgoing) + EncodeHeader(Header(DOWNLOAD, OK, size, 0, 0))
      ensures sock.reliable ==> ok
    {
      var hdr := Header(DOWNLOAD, OK, size, 0, 0);
      ok := SendMessageMeta(sock, host, hdr, [], []);
      assert old(sock.outgoing) + EncodeHeader(hdr) + [] + [] == old(sock.outgoing) + EncodeHeader(hdr);
    }

    /** Header of a download, then the file as long as it lasts. */
    method SendDownload(sock: Socket, user: Bytes, filename: Bytes, size: nat, ghost n: nat)
      returns (goesOn: bool)
      requires Ready(user, n + 1) && PlainUser(files.platform, user) && size < ABSENT
      requires PlainIfValid(files.platform, filename)
      modifies files.locks, files.locks.locks.Values, sock`outgoing
      ensures files.NewEntries() && Kept(n) && files.store == old(files.store)
      ensures sock.reliable ==>
        var k := Key(user, filename);
        && goesOn == (ValidName(filename) && k in files.store.files)
        && sock.outgoing == old(sock.outgoing) + (EncodeHeader(Header(DOWNLOAD, OK, size, 0, 0))
                                                  + (if goesOn then files.store.files[k] else []))
    {
      var ok := Announce(sock, size);
      if !ok {
        return false;
      }
      goesOn := StreamOut(sock, user, filename, n);
      if sock.reliable {
        Associate(old(sock.outgoing), EncodeHeader(Header(DOWNLOAD, OK, size, 0, 0)),
                  if goesOn then files.store.files[Key(user, filename)] else []);
      }
    }

    method RespondAbsent(sock: Socket, ghost user: Bytes, ghost filename: Bytes) returns (goesOn: bool)
      requires files.store.Indexed(Key(user, filename)).None?
      modifies sock`outgoing
      ensures sock.reliable ==>
        Answered(sock, DOWNLOAD, ServeDownload(files.store, user, filename), goesOn)
    {
      AbsentMeans(files.store, user, filename);
      goesOn := Respond(sock, DOWNLOAD, NOT_FOUND, Ascii("File not found."));
    }

    method HandleDownload(sock: Socket, user: Bytes, filename: Bytes, ghost n: nat) returns (goesOn: bool)
      requires Ready(user, n + 1) && PlainUser(files.platform, user)
      requires PlainIfValid(files.platform, filename)
      modifies files.locks, files.locks.locks.Values, sock`outgoing
      ensures files.NewEntries() && Kept(n) && files.store == old(files.store)
      ensures sock.reliable ==>
        Answered(sock, DOWNLOAD, ServeDownload(files.store, user, filename), goesOn)
    {
      var fileSize := files.GetFileSize(user, filename);
      if fileSize == ABSENT {
        goesOn := RespondAbsent(sock, user, filename);
        return;
      }
      goesOn := SendDownload(sock, user, filename, fileSize, n);
      if sock.reliable {
        DownloadMeans(files.store, user, filename, fileSize, goesOn);
      }
    }

    /** Deletes a file; the reference leaks when the filesystem throws. */
    method RemoveStored(fate: Fate, user: Bytes, filename: Bytes, ghost n: nat)
      returns (success: bool, ghost out: Outcome)
      requires Ready(user, n + 1) && PlainUser(files.platform, user)
      requires PlainIfValid(files.platform, filename)
      modifies files, files.index, files.locks, files.locks.locks.Values
      ensures files.NewEntries() && Kept(n)
      ensures OneStep(old(files.store), files.store)
      ensures success == out.Success()
      ensures var op := Delete(Key(user, filename));
              if ValidName(filename)
              then && Allowed(old(files.store), op, out) && (out.Threw? <==> fate.throws)
                   && files.store == Effect(old(files.store), op, out)
              else out == Missing && files.store == old(files.store)
    {
      SpareOne(files.locks.Counts(), PathKey(files.platform, Key(user, filename)), n);
      success, out := files.DeleteFile(user, filename, fate.throws);
      if ValidName(filename) {
        SizedAfter(old(files.store), Delete(Key(user, filename)), out);
      }
    }

    method HandleDelete(sock: Socket, fate: Fate, user: Bytes, filename: Bytes, ghost n: nat)
      returns (goesOn: bool)
      requires Ready(user, n + 1) && PlainUser(files.platform, user)
      requires PlainIfValid(files.platform, filename)
      modifies files, files.index, files.locks, files.locks.locks.Values, sock`outgoing
      ensures files.NewEntries() && Kept(n)
      ensures OneStep(old(files.store), files.store)
      ensures sock.reliable ==>
        Answered(sock, DELETE, ServeDelete(fate, old(files.store), user, filename), goesOn)
    {
      ghost var out;
      var success;
      success, out := RemoveStored(fate, user, filename, n);
      DeleteMeans(fate, old(files.store), user, filename, out);
      var status := if success then OK else NOT_FOUND;
      var body := if success then Ascii("File deleted successfully.")
                  else Ascii("File not found or cannot be deleted.");
      goesOn := Respond(sock, DELETE, status, body);
    }

    /** Renames a file; both references leak when the filesystem throws. */
    method MoveStored(fate: Fate, user: Bytes, oldName: Bytes, newName: Bytes, ghost n: nat)
      returns (success: bool, ghost out: Outcome)
      requires Ready(user, n + 1) && PlainUser(files.platform, user)
      requires PlainIfValid(files.platform, oldName) && PlainIfValid(files.platform, newName)
      modifies files, files.index, files.locks, files.locks.locks.Values
      ensures files.NewEntries() && Kept(n)
      ensures OneStep(old(files.store), files.store)
      ensures success == (out.Success() || (ValidName(oldName) && oldName == newName))
      ensures var op := Rename(Key(user, oldName), Key(user, newName));
              if ValidName(oldName) && ValidName(newName) && oldName != newName
              then && Allowed(old(files.store), op, out) && (out.Threw? <==> fate.throws)
                   && files.store == Effect(old(files.store), op, out)
              else out == Clash && files.store == old(files.store)
    {
      if ValidName(oldName) && ValidName(newName) {
        PlainApart(files.platform, Key(user, oldName), Key(user, newName));
      }
      SpareAfter(files.locks.Counts(), PathKey(files.platform, Key(user, oldName)),
                 PathKey(files.platform, Key(user, newName)), n);
      success, out := files.RenameFile(user, oldName, newName, fate.throws);
      if ValidName(oldName) && ValidName(newName) && oldName != newName {
        SizedAfter(old(files.store), Rename(Key(user, oldName), Key(user, newName)), out);
      }
    }

    method HandleRename(sock: Socket, fate: Fate, user: Bytes, oldName: Bytes, newName: Bytes, ghost n: nat)
      returns (goesOn: bool)
      requires Ready(user, n + 1) && PlainUser(files.platform, user)
      requires PlainIfValid(files.platform, oldName) && PlainIfValid(files.platform, newName)
      modifies files, files.index, files.locks, files.locks.locks.Values, sock`outgoing
      ensures files.NewEntries() && Kept(n)
      ensures OneStep(old(files.store), files.store)
      ensures sock.reliable ==>
        Answered(sock, RENAME, ServeRename(fate, old(files.store), user, oldName, newName), goesOn)
    {
      ghost var out;
      var success;
      success, out := MoveStored(fate, user, oldName, newName, n);
      RenameMeans(fate, old(files.store), user, oldName, newName, out, success);
      var status := if success then OK else NOT_FOUND;
      var body := if success then Ascii("Renamed successfully.")
                  else Ascii("File not found or new name conflicts.");
      goesOn := Respond(sock, RENAME, status, body);
    }

    method HandleList(sock: Socket, user: Bytes) returns (goesOn: bool)
      requires files.Mirrored() && PlainUser(files.platform, user) && ShortText(text)
      modifies sock`outgoing
      ensures sock.reliable ==> Answered(sock, LIST, ServeList(text, files.store, user), goesOn)
    {
      var listing := files.ListFiles(user);
      goesOn := Respond(sock, LIST, OK, if listing == map[] then Ascii("(Empty)") else text(listing));
    }

    /** The commands that need a login, but for UPLOAD. */
    method DispatchFile(sock: Socket, fate: Fate, user: Bytes, m: Message, ghost n: nat)
      returns (goesOn: bool)
      requires Ready(user, n + 1) && PlainUser(files.platform, user)
      requires DOWNLOAD <= m.hdr.command <= RENAME
      requires GoodNames(files.platform, sock.reliable, m.hdr.command, m.username, m.filename, m.payload)
      modifies files, files.index, files.locks, files.locks.locks.Values, sock`outgoing
      ensures files.NewEntries() && Kept(LeftOver(m.hdr.command, n))
      ensures OneStep(old(files.store), files.store)
      ensures sock.reliable ==>
        Answered(sock, m.hdr.command, Serve(text, fate, old(files.store), user, m), goesOn)
    {
      var cmd := m.hdr.command;
      ServeByCommand(text, fate, files.store, user, m);
      if cmd == DOWNLOAD {
        goesOn := HandleDownload(sock, user, m.filename, n);
      } else if cmd == LIST {
        goesOn := HandleList(sock, user);
      } else if cmd == DELETE {
        goesOn := HandleDelete(sock, fate, user, m.filename, n);
      } else {
        goesOn := HandleRename(sock, fate, user, m.filename, m.payload, n);
      }
    }

    /** The commands that touch no file, and file commands without a login. */
    method DispatchPlain(sock: Socket, ghost fate: Fate, user: Bytes, m: Message)
      returns (goesOn: bool, user': Bytes)
      requires m.hdr.Fits() && m.hdr.command != UPLOAD
      requires LOGIN < m.hdr.command < QUIT ==> user == []
      requires m.hdr.command == LOGIN ==> GoodLogin(files.platform, sock.reliable, m.username)
      modifies sock`outgoing
      ensures user' == if m.hdr.command == LOGIN then m.username else user
      ensures sock.reliable ==>
        Answered(sock, m.hdr.command, Serve(text, fate, files.store, user, m), goesOn)
    {
      var cmd := m.hdr.command;
      user' := user;
      var status, body := BAD_REQUEST, Ascii("Must LOGIN first");
      if cmd == LOGIN {
        user' := m.username;
        status, body := OK, Ascii("Welcome, ") + user' + Ascii("!");
      } else if cmd == QUIT {
        status, body := OK, Ascii("Goodbye!");
      } else if cmd < LOGIN || QUIT < cmd {
        body := Ascii("Unknown or unsupported command: UNKNOWN");
      }
      goesOn := Respond(sock, cmd, status, body);
      goesOn := goesOn && cmd != QUIT;
    }

    /** The switch of handle_client for every command but UPLOAD, whose payload has been read. */
    method Dispatch(sock: Socket, fate: Fate, user: Bytes, m: Message, ghost n: nat)
      returns (goesOn: bool, user': Bytes)
      requires Ready(user, n + 1) && m.hdr.Fits() && m.hdr.command != UPLOAD
      requires GoodNames(files.platform, sock.reliable, m.hdr.command, m.username, m.filename, m.payload)
      modifies files, files.index, files.locks, files.locks.locks.Values, sock`outgoing
      ensures files.NewEntries() && Kept(LeftOver(m.hdr.command, n))
      ensures OneStep(old(files.store), files.store)
      ensures user' == if m.hdr.command == LOGIN then m.username else user
      ensures sock.reliable ==>
        Answered(sock, m.hdr.command, Serve(text, fate, old(files.store), user, m), goesOn)
    {
      user' := user;
      if LOGIN < m.hdr.command < QUIT && user != [] {
        goesOn := DispatchFile(sock, fate, user, m, n);
      } else {
        goesOn, user' := DispatchPlain(sock, fate, user, m);
      }
    }

    /** The request after its header and names: payload, service, answer. */
    method ServeRequest(sock: Socket, fate: Fate, user: Bytes, hdr: Header, username: Bytes, filename: Bytes,
                        ghost n: nat)
      returns (goesOn: bool, user': Bytes)
      requires Ready(user, n + 1) && hdr.Fits()
      requires sock.reliable && hdr.command != UPLOAD ==> hdr.payloadLength < INT_LIMIT
      requires hdr.command == UPLOAD ==> PlainIfValid(files.platform, filename)
      requires hdr.payloadLength <= |sock.incoming| ==>
        && (hdr.command == UPLOAD ==> hdr.payloadLength < ABSENT)
        && GoodNames(files.platform, sock.reliable, hdr.command, username, filename,
                     sock.incoming[..hdr.payloadLength])
      modifies files, files.index, files.locks, files.locks.locks.Values, sock
      ensures files.NewEntries() && Ready(user', LeftOver(hdr.command, n))
      ensures OneStep(old(files.store), files.store)
      ensures goesOn ==> Dealt(sock.reliable, hdr, old(sock.incoming), sock.incoming)
      ensures sock.reliable ==>
        Came(ServeRest(text, fate, old(files.store), user, hdr, username, filename, old(sock.incoming)),
             old(files.store), old(sock.outgoing), files.store, user', sock.incoming, sock.outgoing, goesOn)
    {
      user' := user;
      if hdr.command == UPLOAD {
        UploadIsServe(text, fate, files.store, user, hdr, username, filename, sock.incoming);
        goesOn := HandleUpload(sock, fate, user, filename, hdr.payloadLength, n);
      } else {
        var ok, payload := RecvField(sock, hdr.payloadLength);
        if !ok {
          return false, user;
        }
        ghost var m := Message(hdr, username, filename, payload);
        ServeFlow(text, fate, files.store, user, m);
        goesOn, user' := Dispatch(sock, fate, user, Message(hdr, username, filename, payload), n);
      }
    }

    /** One iteration of the loop: the request is read, served and answered. */
    method HandleRequest(sock: Socket, user: Bytes, ghost n: nat)
      returns (goesOn: bool, user': Bytes, ghost fate: Fate)
      requires GoodRequest(files.platform, sock.reliable, sock.incoming) && Ready(user, n + 1)
      modifies files, files.index, files.locks, files.locks.locks.Values, sock
      ensures files.NewEntries() && Ready(user', LeftBehind(old(sock.incoming), n))
      ensures OneStep(old(files.store), files.store) && (calm ==> fate == CALM)
      ensures goesOn ==> DealtWith(sock.reliable, old(sock.incoming), sock.incoming)
      ensures sock.reliable ==>
        Came(ServeNext(text, fate, old(files.store), user, old(sock.incoming)),
             old(files.store), old(sock.outgoing), files.store, user', sock.incoming, sock.outgoing, goesOn)
    {
      fate := CALM;
      var ok, hdr, username, filename := RecvMessageMeta(sock, host);
      if !ok {
        return false, user, fate;
      }
      MetaShorter(old(sock.incoming));
      var f := Fortune();
      goesOn, user' := ServeRequest(sock, f, user, hdr, username, filename, n);
      fate := f;
    }

    /** The body of the loop, in the middle of a session. */
    method NextRequest(sock: Socket, user: Bytes, ghost s0: Store, ghost stream0: Bytes, ghost sent0: Bytes,
                       ghost fates: seq<Fate>, ghost n: nat)
      returns (goesOn: bool, user': Bytes, ghost fate: Fate, ghost n': nat)
      requires Ready(user, n + 1)
      requires Midway(text, files.platform, sock.reliable, sock.reliable, s0, stream0, sent0, fates,
                      files.store, user, sock.incoming, sock.outgoing, true, n)
      modifies files, files.index, files.locks, files.locks.locks.Values, sock
      ensures files.NewEntries() && files.Valid() && (goesOn ==> Ready(user', n' + 1))
      ensures calm ==> fate == CALM
      ensures goesOn ==> |sock.incoming| < |old(sock.incoming)|
      ensures Midway(text, files.platform, sock.reliable, sock.reliable, s0, stream0, sent0, fates + [fate],
                     files.store, user', sock.incoming, sock.outgoing, goesOn, n')
    {
      GoodFirst(files.platform, sock.reliable, sock.incoming, n);
      goesOn, user', fate := HandleRequest(sock, user, n);
      n' := Onward(text, files.platform, sock.reliable, s0, stream0, sent0, fates, old(files.store), user,
                   old(sock.incoming), old(sock.outgoing), fate, files.store, user', sock.incoming,
                   sock.outgoing, goesOn, n);
    }

    /**
      handle_client: the whole session, and the connection count before and after it. `fates` is what
      the filesystem did to the requests, in order; at most `n` requests may leak a reference.
    */
    method HandleClient(sock: Socket, ghost n: nat) returns (ghost fates: seq<Fate>)
      requires GoodInput(files.platform, sock.reliable, sock.incoming, n) && Ready([], n + 1)
      modifies this`activeConnections, files, files.index, files.locks, files.locks.locks.Values, sock
      ensures files.Valid() && activeConnections == old(activeConnections)
      ensures Evolves(old(files.store), files.store)
      ensures calm ==> forall i :: 0 <= i < |fates| ==> fates[i] == CALM
      ensures running && sock.reliable ==>
        (files.store, sock.outgoing) ==
        var (last, sent) := ServeAll(text, fates, old(files.store), [], old(sock.incoming));
        (last, old(sock.outgoing) + sent)
      ensures !running ==> files.store == old(files.store) && sock.outgoing == old(sock.outgoing)
    {
      activeConnections := activeConnections + 1;
      var sessionUser: Bytes := [];
      var goesOn := running;
      ghost var budget := n;
      fates := [];
      MidwayFirst(text, files.platform, sock.reliable && running, sock.reliable, files.store, sock.incoming,
                  sock.outgoing, running, budget);
      while goesOn
        invariant activeConnections == old(activeConnections) + 1
        invariant files.NewEntries() && files.Valid()
        invariant goesOn ==> running && Ready(sessionUser, budget + 1)
        invariant calm ==> forall i :: 0 <= i < |fates| ==> fates[i] == CALM
        invariant !running ==> files.store == old(files.store) && sock.outgoing == old(sock.outgoing)
        invariant Midway(text, files.platform, sock.reliable && running, sock.reliable, old(files.store),
                         old(sock.incoming), old(sock.outgoing), fates, files.store, sessionUser, sock.incoming,
                         sock.outgoing, goesOn, budget)
        decreases goesOn, |sock.incoming|
      {
        ghost var fate;
        goesOn, sessionUser, fate, budget :=
          NextRequest(sock, sessionUser, old(files.store), old(sock.incoming), old(sock.outgoing), fates, budget);
        fates := fates + [fate];
      }
      MidwayEnds(text, files.platform, sock.reliable && running, sock.reliable, old(files.store), old(sock.incoming),
                 old(sock.outgoing), fates, files.store, sessionUser, sock.incoming, sock.outgoing, budget);
      activeConnections := activeConnections - 1;
    }
  }

  /** What became of store, user, stream, bytes sent and session, given what the request means. */
  predicate Came(next: Next, s: Store, sent: Bytes, s': Store, user': Bytes, stream': Bytes, sent': Bytes,
                 goesOn: bool)
  {
    match next
    case None => !goesOn && s' == s && sent' == sent
    case Some((a, more, rest)) =>
      s' == a.store && goesOn == a.goesOn && user' == a.user && sent' == sent + more && stream' == rest
  }

  /** However the session goes on, the fates so far have led here. */
  ghost predicate Led(text: Text, s0: Store, stream0: Bytes, sent0: Bytes, fates: seq<Fate>,
                      s: Store, user: Bytes, stream: Bytes, sent: Bytes, goesOn: bool)
  {
    forall more: seq<Fate> ::
      var (last, bytes) := ServeAll(text, fates + more, s0, [], stream0);
      (last, sent0 + bytes) == Outlook(text, more, s, user, stream, sent, goesOn)
  }

  function Outlook(text: Text, more: seq<Fate>, s: Store, user: Bytes, stream: Bytes, sent: Bytes,
                   goesOn: bool): (Store, Bytes)
  {
    if !goesOn then (s, sent)
    else
      var (last, bytes) := ServeAll(text, more, s, user, stream);
      (last, sent + bytes)
  }

  /** The session so far: by atomic operations only, with good input ahead, and, where it is
      `followed`, as its requests mean. */
  ghost predicate Midway(text: Text, p: Platform, followed: bool, reliable: bool, s0: Store, stream0: Bytes,
                         sent0: Bytes, fates: seq<Fate>, s: Store, user: Bytes, stream: Bytes, sent: Bytes,
                         goesOn: bool, n: nat)
  {
    && Evolves(s0, s)
    && (goesOn ==> GoodInput(p, reliable, stream, n))
    && (followed ==> Led(text, s0, stream0, sent0, fates, s, user, stream, sent, goesOn))
  }

  lemma MidwayFirst(text: Text, p: Platform, followed: bool, reliable: bool, s: Store, stream: Bytes, sent: Bytes,
                    goesOn: bool, n: nat)
    requires GoodInput(p, reliable, stream, n) && (followed ==> goesOn)
    ensures Midway(text, p, followed, reliable, s, stream, sent, [], s, [], stream, sent, goesOn, n)
  {
    EvolvesNot(s);
    LedFirst(text, s, stream, sent);
  }

  lemma Onward(text: Text, p: Platform, reliable: bool, s0: Store, stream0: Bytes, sent0: Bytes, fates: seq<Fate>,
               s: Store, user: Bytes, stream: Bytes, sent: Bytes, fate: Fate,
               s': Store, user': Bytes, stream': Bytes, sent': Bytes, goesOn: bool, n: nat)
    returns (n': nat)
    requires Midway(text, p, reliable, reliable, s0, stream0, sent0, fates, s, user, stream, sent, true, n)
    requires OneStep(s, s') && (goesOn ==> DealtWith(reliable, stream, stream'))
    requires reliable ==> Came(ServeNext(text, fate, s, user, stream), s, sent, s', user', stream', sent', goesOn)
    ensures Midway(text, p, reliable, reliable, s0, stream0, sent0, fates + [fate], s', user', stream', sent',
                   goesOn, n')
    ensures goesOn ==>
      |stream'| < |stream| && LeftBehind(stream, n) == n' + 1
  {
    n' := n;
    EvolvesMore(s0, s, s');
    if goesOn {
      n' := GoodNext(p, reliable, stream, n, stream');
    }
    if reliable {
      LedNext(text, s0, stream0, sent0, fates, s, user, stream, sent, fate, s', user', stream', sent', goesOn);
    }
  }

  lemma MidwayEnds(text: Text, p: Platform, followed: bool, reliable: bool, s0: Store, stream0: Bytes, sent0: Bytes,
                   fates: seq<Fate>, s: Store, user: Bytes, stream: Bytes, sent: Bytes, n: nat)
    requires Midway(text, p, followed, reliable, s0, stream0, sent0, fates, s, user, stream, sent, false, n)
    ensures Evolves(s0, s)
    ensures followed ==>
      var (last, bytes) := ServeAll(text, fates, s0, [], stream0); (s, sent) == (last, sent0 + bytes)
  {
    if followed {
      LedLast(text, s0, stream0, sent0, fates, s, user, stream, sent);
    }
  }

  lemma LedFirst(text: Text, s: Store, stream: Bytes, sent: Bytes)
    ensures Led(text, s, stream, sent, [], s, [], stream, sent, true)
  {
    var none: seq<Fate> := [];
    assert forall more: seq<Fate> :: none + more == more;
  }

  lemma ServeAllNext(text: Text, fates: seq<Fate>, s: Store, user: Bytes, stream: Bytes)
    ensures ServeAll(text, fates, s, user, stream) ==
            match ServeNext(text, First(fates), s, user, stream)
            case None => (s, [])
            case Some((a, sent, rest)) =>
              if !a.goesOn then (a.store, sent)
              else
                var (last, more) := ServeAll(text, Later(fates), a.store, a.user, rest);
                (last, sent + more)
  {
    if ServeNext(text, First(fates), s, user, stream).Some? {
      ServeNextShrinks(text, First(fates), s, user, stream);
    }
  }

  /** One request of the outlook. */
  lemma OutlookNext(text: Text, fates: seq<Fate>, s: Store, user: Bytes, stream: Bytes, sent: Bytes,
                    s': Store, user': Bytes, stream': Bytes, sent': Bytes, goesOn: bool)
    requires Came(ServeNext(text, First(fates), s, user, stream), s, sent, s', user', stream', sent', goesOn)
    ensures Outlook(text, fates, s, user, stream, sent, true)
            == Outlook(text, Later(fates), s', user', stream', sent', goesOn)
  {
    ServeAllNext(text, fates, s, user, stream);
    var next := ServeNext(text, First(fates), s, user, stream);
    var all := ServeAll(text, fates, s, user, stream);
    var later := ServeAll(text, Later(fates), s', user', stream');
    Joined(next, all, later, s, sent, s', user', stream', sent', goesOn);
  }

  lemma Joined(next: Next, all: (Store, Bytes), later: (Store, Bytes), s: Store, sent: Bytes,
               s': Store, user': Bytes, stream': Bytes, sent': Bytes, goesOn: bool)
    requires Came(next, s, sent, s', user', stream', sent', goesOn)
    requires match next
             case None => all == (s, [])
             case Some((a, bytes, rest)) =>
               all == if !a.goesOn then (a.store, bytes) else (later.0, bytes + later.1)
    ensures (all.0, sent + all.1) == if goesOn then (later.0, sent' + later.1) else (s', sent')
  {
    if next.None? {
      assert sent + [] == sent;
    } else if goesOn {
      assert sent + next.value.1 + later.1 == sent + (next.value.1 + later.1);
    }
  }

  lemma LedNext(text: Text, s0: Store, stream0: Bytes, sent0: Bytes, fates: seq<Fate>,
                s: Store, user: Bytes, stream: Bytes, sent: Bytes, fate: Fate,
                s': Store, user': Bytes, stream': Bytes, sent': Bytes, goesOn: bool)
    requires Led(text, s0, stream0, sent0, fates, s, user, stream, sent, true)
    requires Came(ServeNext(text, fate, s, user, stream), s, sent, s', user', stream', sent', goesOn)
    ensures Led(text, s0, stream0, sent0, fates + [fate], s', user', stream', sent', goesOn)
  {
    forall more: seq<Fate>
      ensures var (last, bytes) := ServeAll(text, fates + [fate] + more, s0, [], stream0);
              (last, sent0 + bytes) == Outlook(text, more, s', user', stream', sent', goesOn)
    {
      var now := [fate] + more;
      assert fates + [fate] + more == fates + now;
      assert First(now) == fate && Later(now) == more;
      OutlookNext(text, now, s, user, stream, sent, s', user', stream', sent', goesOn);
    }
  }

  lemma LedLast(text: Text, s0: Store, stream0: Bytes, sent0: Bytes, fates: seq<Fate>,
                s: Store, user: Bytes, stream: Bytes, sent: Bytes)
    requires Led(text, s0, stream0, sent0, fates, s, user, stream, sent, false)
    ensures var (last, bytes) := ServeAll(text, fates, s0, [], stream0); (s, sent) == (last, sent0 + bytes)
  {
    assert fates + [] == fates;
  }
}
