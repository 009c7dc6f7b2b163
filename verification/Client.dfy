/** The client's half of the protocol. */
module Client {
  import opened Basics
  import opened Wire
  import opened Network
  import opened Protocol
  import opened Session

  /** What the user asks for. `canCreate` says whether the local file can be created. */
  datatype Command =
    | Login(name: Bytes)
    | Upload(file: Bytes, data: Bytes)
    | Download(file: Bytes, canCreate: bool)
    | List
    | Delete(file: Bytes)
    | Rename(oldName: Bytes, newName: Bytes)
    | Quit

  /** The boolean the client returns, and the local file a download leaves behind. */
  datatype Result = Result(success: bool, local: Option<Bytes>)

  const FAILED := Result(false, None)

  function Request(cmd: nat, user: Bytes, file: Bytes, payload: Bytes): Message {
    Message(Header(cmd, 0, |payload|, |file|, |user|), user, file, payload)
  }

  /** The message a command puts on the wire; `user` is `username_` at that moment. */
  function RequestOf(user: Bytes, c: Command): Message {
    match c
    case Login(name) => Request(LOGIN, name, [], [])
    case Upload(file, data) => Request(UPLOAD, user, file, data)
    case Download(file, _) => Request(DOWNLOAD, user, file, [])
    case List => Request(LIST, user, [], [])
    case Delete(file) => Request(DELETE, user, file, [])
    case Rename(oldName, newName) => Request(RENAME, user, oldName, newName)
    case Quit => Request(QUIT, [], [], [])
  }

  /** upload_file and download_file refuse before sending anything without a user name. */
  predicate Sends(user: Bytes, c: Command) {
    !((c.Upload? || c.Download?) && user == [])
  }

  predicate Good(status: nat) {
    status == OK || status == CREATED
  }

  /** What the client makes of the reply at the head of the stream, and what it leaves
      unread; `None` when the stream ends too early. */
  function Consume(c: Command, stream: Bytes): Option<(Result, Bytes)> {
    match Parse(stream)
    case None => None
    case Some((m, rest)) =>
      if !c.Download? then Some((Result(c.Quit? || Good(m.hdr.status), None), rest))
      else if m.hdr.status != OK || !c.canCreate then Some((FAILED, rest))
      else Some((Result(true, Some(m.payload)), rest))
  }

  /** Fields are sent and received in one piece, files are not. */
  predicate Fits(user: Bytes, c: Command) {
    var m := RequestOf(user, c);
    && |m.username| + 16 < INT_LIMIT && |m.filename| < INT_LIMIT
    && |m.payload| < (if c.Upload? then U64 - 1 else INT_LIMIT)
  }

  /** A null payload pointer is sent as an empty body. */
  function BodyOf(payload: Option<Bytes>): Bytes {
    if payload.Some? then payload.value else []
  }

  /** What send_message writes for a request is the encoded message. */
  lemma RequestBytes(sent: Bytes, cmd: nat, user: Bytes, file: Bytes, payload: Option<Bytes>)
    ensures var body := BodyOf(payload);
            var hdr := Header(cmd, 0, |body|, |file|, |user|);
            sent + EncodeHeader(hdr) + user[..|user|] + file[..|file|]
            + (if |body| > 0 && payload.Some? then payload.value[..|body|] else [])
            == sent + Encode(Request(cmd, user, file, body))
  {
    var body := BodyOf(payload);
    assert user[..|user|] == user && file[..|file|] == file && body[..|body|] == body;
  }

  lemma MetaBytes(sent: Bytes, cmd: nat, user: Bytes, file: Bytes, payload: Bytes)
    ensures var hdr := Header(cmd, 0, |payload|, |file|, |user|);
            sent + EncodeHeader(hdr) + user[..|user|] + file[..|file|] + payload
            == sent + Encode(Request(cmd, user, file, payload))
  {
    assert user[..|user|] == user && file[..|file|] == file;
  }

  /** The outcome of a download from the parts of the reply. */
  lemma ConsumeDownload(c: Command, stream: Bytes, h: Header, user: Bytes, file: Bytes, rest: Bytes)
    requires c.Download? && ParseMeta(stream) == Some((h, user, file, rest))
    ensures Consume(c, stream) ==
            match Take(rest, h.payloadLength)
            case None => None
            case Some((data, after)) =>
              Some((if h.status == OK && c.canCreate then Result(true, Some(data)) else FAILED, after))
  {
  }

  /** The local files after a download: the whole payload, or no partial file. */
  function LocalAfter(before: map<Bytes, Bytes>, file: Bytes, canCreate: bool, stream: Bytes): map<Bytes, Bytes> {
    match ParseMeta(stream)
    case None => before
    case Some((h, username, filename, rest)) =>
      if h.status != OK || !canCreate then before
      else if h.payloadLength <= |rest| then before[file := rest[..h.payloadLength]]
      else before - {file}
  }

  lemma RequestMatches(user: Bytes, c: Command)
    requires Fits(user, c)
    ensures RequestOf(user, c).Matches()
  {
  }

  class Client {
    const host: Host
    const sock: Socket
    var connected: bool
    var username: Bytes
    var downloads: map<Bytes, Bytes>

    constructor (host: Host, sock: Socket)
      ensures this.host == host && this.sock == sock
      ensures connected && username == [] && downloads == map[]
    {
      this.host, this.sock := host, sock;
      connected, username, downloads := true, [], map[];
    }

    method Disconnect()
      modifies this`connected, this`username
      ensures !connected && username == (if old(connected) then [] else old(username))
    {
      if connected {
        connected, username := false, [];
      }
    }

    /** The contract of every command on a connection that does not fail: the request goes
        out, and the reply at the head of the stream decides the result. */
    twostate predicate Performed(user: Bytes, c: Command, r: Result)
      reads this, sock
    {
      && sock.outgoing == old(sock.outgoing) + Encode(RequestOf(user, c))
      && (match Consume(c, old(sock.incoming))
          case Some((result, rest)) => r == result && sock.incoming == rest && (connected <==> !c.Quit?)
          case None => r.success == c.Quit? && r.local == None && !connected)
    }

    /** A command that is refused before anything is sent. */
    twostate predicate Idle(success: bool)
      reads this, sock
    {
      && !success && connected == old(connected) && username == old(username)
      && sock.outgoing == old(sock.outgoing) && sock.incoming == old(sock.incoming)
    }

    method ReceiveResponse() returns (success: bool)
      modifies this`connected, this`username, sock`incoming
      ensures connected ==> username == old(username)
      ensures sock.reliable && SmallFrame(old(sock.incoming)) ==>
        match Parse(old(sock.incoming))
        case Some((m, rest)) =>
          success == (m.hdr.status == 200 || m.hdr.status == 201) && sock.incoming == rest
          && connected == old(connected) && username == old(username)
        case None => !success && !connected
    {
      var ok, m := RecvMessage(sock, host);
      if !ok {
        Disconnect();
        return false;
      }
      return Good(m.hdr.status);
    }

    /** send_command: request out, response in. */
    method SendCommand(cmd: nat, filename: Bytes, payload: Option<Bytes>) returns (success: bool)
      requires connected && cmd < U32 && |username| < INT_LIMIT && |filename| < INT_LIMIT
      requires payload.Some? ==> |payload.value| < INT_LIMIT
      modifies this`connected, this`username, sock
      ensures connected ==> username == old(username)
      ensures sock.reliable && SmallFrame(old(sock.incoming)) ==>
        && sock.outgoing == old(sock.outgoing) + Encode(Request(cmd, old(username), filename, BodyOf(payload)))
        && match Parse(old(sock.incoming))
           case Some((m, rest)) =>
             && success == (m.hdr.status == 200 || m.hdr.status == 201)
             && sock.incoming == rest && connected
           case None => !success && !connected
    {
      var size := |BodyOf(payload)|;
      var hdr := Header(cmd, 0, size, |filename|, |username|);
      var ok := SendMessage(sock, host, hdr, username, filename, payload, size);
      if !ok {
        Disconnect();
        return false;
      }
      RequestBytes(old(sock.outgoing), cmd, username, filename, payload);
      success := ReceiveResponse();
    }

    /** The file goes out in chunks after the header. */
    method SendFile(content: Bytes) returns (ok: bool)
      modifies sock`outgoing
      ensures sock.reliable ==> ok
      ensures ok ==> sock.outgoing == old(sock.outgoing) + content
    {
      var bytesSent := 0;
      while bytesSent < |content|
        invariant 0 <= bytesSent <= |content|
        invariant sock.outgoing == old(sock.outgoing) + content[..bytesSent]
      {
        var bytesRead := Min(TRANSFER_BUFFER_SIZE, |content| - bytesSent);
        var chunk := content[bytesSent..bytesSent + bytesRead];
        ok := SendAll(sock, chunk, bytesRead);
        if !ok {
          return;
        }
        assert content[..bytesSent] + chunk[..bytesRead] == content[..bytesSent + bytesRead];
        bytesSent := bytesSent + bytesRead;
      }
      assert content[..bytesSent] == content;
      ok := true;
    }

    method UploadFile(filename: Bytes, content: Bytes) returns (success: bool)
      requires Fits(username, Upload(filename, content))
      modifies this`connected, this`username, sock
      ensures !old(connected) || old(username) == [] ==> Idle(success)
      ensures sock.reliable && SmallFrame(old(sock.incoming)) && old(username) != [] && old(connected) ==>
        Performed(old(username), Upload(filename, content), Result(success, None))
    {
      if !connected || username == [] {
        return false;
      }
      var hdr := Header(UPLOAD, 0, |content|, |filename|, |username|);
      var ok := SendMessageMeta(sock, host, hdr, username, filename);
      if !ok {
        Disconnect();
        return false;
      }
      ok := SendFile(content);
      if !ok {
        Disconnect();
        return false;
      }
      MetaBytes(old(sock.outgoing), UPLOAD, username, filename, content);
      success := ReceiveResponse();
    }

    /** The announced bytes, chunk by chunk, into the local file. */
    method ReceiveFile(filename: Bytes, size: nat) returns (ok: bool)
      modifies this`downloads, sock`incoming
      ensures sock.reliable ==>
        match Take(old(sock.incoming), size)
        case Some((data, rest)) => ok && sock.incoming == rest && downloads == old(downloads)[filename := data]
        case None => !ok && downloads == old(downloads) - {filename}
    {
      ghost var stream := sock.incoming;
      ghost var received := 0;
      downloads := downloads[filename := []];
      var bytesRemaining := size;
      var buffer := new byte[TRANSFER_BUFFER_SIZE](_ => 0);
      while bytesRemaining > 0
        invariant 0 <= bytesRemaining <= size
        invariant received == size - bytesRemaining <= |stream|
        invariant sock.incoming == stream[received..]
        invariant downloads == old(downloads)[filename := stream[..received]]
      {
        var chunkSize := Min(buffer.Length, bytesRemaining);
        ok := RecvAll(sock, buffer, chunkSize);
        if !ok {
          downloads := downloads - {filename};
          return;
        }
        downloads := downloads[filename := downloads[filename] + buffer[..chunkSize]];
        assert stream[..received + chunkSize] == stream[..received] + stream[received..][..chunkSize];
        assert stream[received..][chunkSize..] == stream[received + chunkSize..];
        bytesRemaining := bytesRemaining - chunkSize;
        received := received + chunkSize;
      }
      ok := true;
    }

    /** The local file cannot be created: the announced bytes are read and dropped. */
    method DrainFile(size: nat) returns (ok: bool)
      modifies sock`incoming
      ensures sock.reliable ==>
        match Take(old(sock.incoming), size)
        case Some((data, rest)) => ok && sock.incoming == rest
        case None => !ok
    {
      ghost var stream := sock.incoming;
      ghost var received := 0;
      var bytesRemaining := size;
      var buffer := new byte[TRANSFER_BUFFER_SIZE](_ => 0);
      while bytesRemaining > 0
        invariant 0 <= bytesRemaining <= size
        invariant received == size - bytesRemaining <= |stream|
        invariant sock.incoming == stream[received..]
      {
        var chunkSize := Min(buffer.Length, bytesRemaining);
        ok := RecvAll(sock, buffer, chunkSize);
        if !ok {
          return;
        }
        assert stream[received..][chunkSize..] == stream[received + chunkSize..];
        bytesRemaining := bytesRemaining - chunkSize;
        received := received + chunkSize;
      }
      ok := true;
    }

    /** What follows the header of a download's reply, read in the way its status asks for. */
    method ReceiveBody(filename: Bytes, canCreate: bool, resp: Header) returns (success: bool)
      modifies this, sock`incoming
      ensures sock.reliable && (resp.status == OK || resp.payloadLength < INT_LIMIT) ==>
        match Take(old(sock.incoming), resp.payloadLength)
        case None => !success
        case Some((data, rest)) =>
          && sock.incoming == rest && connected == old(connected)
          && success == (resp.status == OK && canCreate)
          && (success ==> filename in downloads && downloads[filename] == data)
      ensures sock.reliable && (resp.status == OK || resp.payloadLength < INT_LIMIT) ==>
        downloads == if resp.status != OK || !canCreate then old(downloads)
                     else if resp.payloadLength <= |old(sock.incoming)|
                     then old(downloads)[filename := old(sock.incoming)[..resp.payloadLength]]
                     else old(downloads) - {filename}
    {
      if resp.status != OK {
        if resp.payloadLength > 0 {
          var ok, errBody := RecvField(sock, resp.payloadLength);
        }
        return false;
      }
      if !canCreate {
        var ok := DrainFile(resp.payloadLength);
        if !ok {
          Disconnect();
        }
        return false;
      }
      success := ReceiveFile(filename, resp.payloadLength);
      if !success {
        Disconnect();
      }
    }

    method ReceiveDownload(filename: Bytes, canCreate: bool) returns (success: bool)
      modifies this, sock`incoming
      ensures sock.reliable && SmallReply(old(sock.incoming)) ==>
        match Consume(Download(filename, canCreate), old(sock.incoming))
        case None => !success
        case Some((r, rest)) =>
          && sock.incoming == rest && connected == old(connected)
          && success == r.success
          && (success ==> filename in downloads && r.local == Some(downloads[filename]))
      ensures sock.reliable && SmallReply(old(sock.incoming)) ==>
        downloads == LocalAfter(old(downloads), filename, canCreate, old(sock.incoming))
    {
      var ok, resp, respUser, respFile := RecvMessageMeta(sock, host);
      if !ok {
        Disconnect();
        return false;
      }
      ConsumeDownload(Download(filename, canCreate), old(sock.incoming), resp, respUser, respFile, sock.incoming);
      success := ReceiveBody(filename, canCreate, resp);
    }

    method DownloadFile(filename: Bytes, canCreate: bool) returns (success: bool)
      requires Fits(username, Download(filename, canCreate))
      modifies this, sock
      ensures !old(connected) || old(username) == [] ==> Idle(success)
      ensures sock.reliable && SmallReply(old(sock.incoming)) && old(username) != [] && old(connected) ==>
        && sock.outgoing == old(sock.outgoing) + Encode(RequestOf(old(username), Download(filename, canCreate)))
        && match Consume(Download(filename, canCreate), old(sock.incoming))
           case None => !success
           case Some((r, rest)) =>
             && sock.incoming == rest && connected
             && success == r.success
             && (success ==> filename in downloads && r.local == Some(downloads[filename]))
      ensures sock.reliable && SmallReply(old(sock.incoming)) && old(username) != [] && old(connected) ==>
        downloads == LocalAfter(old(downloads), filename, canCreate, old(sock.incoming))
    {
      if !connected || username == [] {
        return false;
      }
      var hdr := Header(DOWNLOAD, 0, 0, |filename|, |username|);
      var ok := SendMessageMeta(sock, host, hdr, username, filename);
      if !ok {
        Disconnect();
        return false;
      }
      MetaBytes(old(sock.outgoing), DOWNLOAD, username, filename, []);
      success := ReceiveDownload(filename, canCreate);
    }

    method Login(name: Bytes) returns (success: bool)
      requires Fits(username, Command.Login(name))
      modifies this`connected, this`username, sock
      ensures !old(connected) ==> Idle(success)
      ensures old(connected) && sock.reliable && SmallFrame(old(sock.incoming)) ==>
        Performed(old(username), Command.Login(name), Result(success, None))
      ensures connected ==> username == name
    {
      if !connected {
        return false;
      }
      username := name;
      success := SendCommand(LOGIN, [], None);
    }

    method ListFiles() returns (success: bool)
      requires Fits(username, List)
      modifies this`connected, this`username, sock
      ensures !old(connected) ==> Idle(success)
      ensures old(connected) && sock.reliable && SmallFrame(old(sock.incoming)) ==>
        Performed(old(username), List, Result(success, None))
    {
      if !connected {
        return false;
      }
      success := SendCommand(LIST, [], None);
    }

    method DeleteFile(filename: Bytes) returns (success: bool)
      requires Fits(username, Delete(filename))
      modifies this`connected, this`username, sock
      ensures !old(connected) ==> Idle(success)
      ensures old(connected) && sock.reliable && SmallFrame(old(sock.incoming)) ==>
        Performed(old(username), Delete(filename), Result(success, None))
    {
      if !connected {
        return false;
      }
      success := SendCommand(DELETE, filename, None);
    }

    method RenameFile(oldName: Bytes, newName: Bytes) returns (success: bool)
      requires Fits(username, Rename(oldName, newName))
      modifies this`connected, this`username, sock
      ensures !old(connected) ==> Idle(success)
      ensures old(connected) && sock.reliable && SmallFrame(old(sock.incoming)) ==>
        Performed(old(username), Rename(oldName, newName), Result(success, None))
    {
      if !connected {
        return false;
      }
      success := SendCommand(RENAME, oldName, Some(newName));
    }

    method DoQuit() returns (success: bool)
      modifies this`connected, this`username, sock
      ensures !connected && (!old(connected) ==> Idle(success))
      ensures old(connected) && sock.reliable && SmallFrame(old(sock.incoming)) ==>
        Performed(old(username), Quit, Result(success, None))
    {
      if !connected {
        return false;  // send on an invalid socket fails
      }
      var hdr := Header(QUIT, 0, 0, 0, 0);
      var ok := SendMessage(sock, host, hdr, [], [], None, 0);
      if !ok {
        Disconnect();
        return false;
      }
      assert sock.outgoing == old(sock.outgoing) + Encode(RequestOf(username, Quit));
      var answered := ReceiveResponse();
      Disconnect();
      return true;
    }
  }

  /** As SmallFrame, but a successful download's payload is read in chunks. */
  predicate SmallReply(b: Bytes) {
    SmallMeta(b) && (HEADER_SIZE <= |b| ==>
      var h := DecodeHeader(b[..HEADER_SIZE]);
      h.status == OK || h.payloadLength < INT_LIMIT)
  }
}
