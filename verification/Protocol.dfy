/** Message framing over a socket. */
module Protocol {
  import opened Basics
  import opened Wire
  import opened Network

  datatype Header = Header(
    command: nat, status: nat, payloadLength: nat, filenameLength: nat, usernameLength: nat)
  {
    /** The fields are two uint32_t and three uint64_t. */
    predicate Fits() {
      && command < U32 && status < U32
      && payloadLength < U64 && filenameLength < U64 && usernameLength < U64
    }
  }

  datatype Message = Message(hdr: Header, username: Bytes, filename: Bytes, payload: Bytes) {
    /** The header announces the fields that follow it. */
    predicate Matches() {
      && hdr.Fits()
      && hdr.usernameLength == |username| && hdr.filenameLength == |filename|
      && hdr.payloadLength == |payload|
    }
  }

  // ----- frames as bytes

  function EncodeHeader(h: Header): (b: Bytes)
    ensures |b| == HEADER_SIZE
  {
    BigEndian(h.command, 4) + BigEndian(h.status, 4) + BigEndian(h.payloadLength, 8)
    + BigEndian(h.filenameLength, 8) + BigEndian(h.usernameLength, 8)
  }

  function DecodeHeader(b: Bytes): (h: Header)
    requires |b| == HEADER_SIZE
  {
    Header(FromBigEndian(b[..4]), FromBigEndian(b[4..8]), FromBigEndian(b[8..16]),
           FromBigEndian(b[16..24]), FromBigEndian(b[24..32]))
  }

  function Encode(m: Message): Bytes {
    EncodeHeader(m.hdr) + m.username + m.filename + m.payload
  }

  /** The first `n` bytes and what follows them. */
  function Take(b: Bytes, n: nat): Option<(Bytes, Bytes)> {
    if n <= |b| then Some((b[..n], b[n..])) else None
  }

  /** Header, user name, file name and the rest of the stream. */
  function ParseMeta(b: Bytes): Option<(Header, Bytes, Bytes, Bytes)> {
    match Take(b, HEADER_SIZE)
    case None => None
    case Some((image, afterHeader)) =>
      var h := DecodeHeader(image);
      match Take(afterHeader, h.usernameLength)
      case None => None
      case Some((username, afterUser)) =>
        match Take(afterUser, h.filenameLength)
        case None => None
        case Some((filename, rest)) => Some((h, username, filename, rest))
  }

  function Parse(b: Bytes): Option<(Message, Bytes)> {
    match ParseMeta(b)
    case None => None
    case Some((h, username, filename, afterMeta)) =>
      match Take(afterMeta, h.payloadLength)
      case None => None
      case Some((payload, rest)) => Some((Message(h, username, filename, payload), rest))
  }

  lemma HeaderRoundTrip(h: Header)
    requires h.Fits()
    ensures DecodeHeader(EncodeHeader(h)) == h
  {
    Pows();
    var b := EncodeHeader(h);
    BigEndianRoundTrip(h.command, 4);
    BigEndianRoundTrip(h.status, 4);
    BigEndianRoundTrip(h.payloadLength, 8);
    BigEndianRoundTrip(h.filenameLength, 8);
    BigEndianRoundTrip(h.usernameLength, 8);
    assert b[..4] == BigEndian(h.command, 4) && b[4..8] == BigEndian(h.status, 4);
    assert b[8..16] == BigEndian(h.payloadLength, 8);
    assert b[16..24] == BigEndian(h.filenameLength, 8);
    assert b[24..32] == BigEndian(h.usernameLength, 8);
  }

  lemma HeaderImage(b: Bytes)
    requires |b| == HEADER_SIZE
    ensures DecodeHeader(b).Fits() && EncodeHeader(DecodeHeader(b)) == b
  {
    Pows();
    FromBigEndianRoundTrip(b[..4]);
    FromBigEndianRoundTrip(b[4..8]);
    FromBigEndianRoundTrip(b[8..16]);
    FromBigEndianRoundTrip(b[16..24]);
    FromBigEndianRoundTrip(b[24..32]);
    assert b == b[..4] + b[4..8] + b[8..16] + b[16..24] + b[24..32];
  }

  lemma MetaRoundTrip(h: Header, username: Bytes, filename: Bytes, rest: Bytes)
    requires h.Fits() && h.usernameLength == |username| && h.filenameLength == |filename|
    ensures ParseMeta(EncodeHeader(h) + username + filename + rest) ==
            Some((h, username, filename, rest))
  {
    HeaderRoundTrip(h);
    var b := EncodeHeader(h) + username + filename + rest;
    assert b[..HEADER_SIZE] == EncodeHeader(h);
    assert b[HEADER_SIZE..] == username + filename + rest;
    assert (username + filename + rest)[..|username|] == username;
    assert (username + filename + rest)[|username|..] == filename + rest;
    assert (filename + rest)[..|filename|] == filename && (filename + rest)[|filename|..] == rest;
  }

  /** Decoding a frame gives the message back and leaves exactly what follows it. */
  lemma ParseEncode(m: Message, rest: Bytes)
    requires m.Matches()
    ensures Parse(Encode(m) + rest) == Some((m, rest))
  {
    MetaRoundTrip(m.hdr, m.username, m.filename, m.payload + rest);
    assert Encode(m) + rest ==
           EncodeHeader(m.hdr) + m.username + m.filename + (m.payload + rest);
    assert (m.payload + rest)[..|m.payload|] == m.payload;
    assert (m.payload + rest)[|m.payload|..] == rest;
  }

  /** Whatever decodes is the encoding of what it decodes to. */
  lemma EncodeParse(b: Bytes)
    requires Parse(b).Some?
    ensures var (m, rest) := Parse(b).value; m.Matches() && b == Encode(m) + rest
  {
    HeaderImage(b[..HEADER_SIZE]);
  }

  function EncodeAll(ms: seq<Message>): Bytes {
    if ms == [] then [] else Encode(ms[0]) + EncodeAll(ms[1..])
  }

  /** Decodes frames until the bytes run out; `None` when they end inside a frame. */
  function ParseAll(b: Bytes): Option<seq<Message>>
    decreases |b|
  {
    if b == [] then Some([])
    else
      match Parse(b)
      case None => None
      case Some((m, rest)) =>
        if |rest| >= |b| then None
        else
          match ParseAll(rest)
          case None => None
          case Some(ms) => Some([m] + ms)
  }

  lemma ParseAllStep(b: Bytes, m: Message, rest: Bytes, ms: seq<Message>)
    requires |rest| < |b| && Parse(b) == Some((m, rest)) && ParseAll(rest) == Some(ms)
    ensures ParseAll(b) == Some([m] + ms)
  {
  }

  /** A stream of frames decodes to exactly the messages sent, with nothing left over. */
  lemma {:induction false} FramesDecode(ms: seq<Message>)
    requires forall i :: 0 <= i < |ms| ==> ms[i].Matches()
    ensures ParseAll(EncodeAll(ms)) == Some(ms)
  {
    if ms != [] {
      var rest := EncodeAll(ms[1..]);
      ParseEncode(ms[0], rest);
      FramesDecode(ms[1..]);
      ParseAllStep(Encode(ms[0]) + rest, ms[0], rest, ms[1..]);
      assert ms == [ms[0]] + ms[1..];
    }
  }

  /** No two different message sequences have the same bytes. */
  lemma FramesUnique(ms: seq<Message>, ns: seq<Message>)
    requires forall i :: 0 <= i < |ms| ==> ms[i].Matches()
    requires forall i :: 0 <= i < |ns| ==> ns[i].Matches()
    requires EncodeAll(ms) == EncodeAll(ns)
    ensures ms == ns
  {
    FramesDecode(ms);
    FramesDecode(ns);
  }

  // ----- sending

  /** The memory image of a header whose fields went through htonl and htonll. */
  function NetworkImage(host: Host, h: Header): Bytes {
    InMemory(host, Htonl(host, h.command), 4) + InMemory(host, Htonl(host, h.status), 4)
    + InMemory(host, Htonll(host, h.payloadLength), 8)
    + InMemory(host, Htonll(host, h.filenameLength), 8)
    + InMemory(host, Htonll(host, h.usernameLength), 8)
  }

  /** Header fields are big-endian on the wire whatever the host. */
  lemma NetworkImageIsBigEndian(host: Host, h: Header)
    requires h.Fits()
    ensures NetworkImage(host, h) == EncodeHeader(h)
  {
    HtonlImage(host, h.command);
    HtonlImage(host, h.status);
    HtonllImage(host, h.payloadLength);
    HtonllImage(host, h.filenameLength);
    HtonllImage(host, h.usernameLength);
  }

  method SendHeader(sock: Socket, host: Host, hdr: Header) returns (ok: bool)
    requires hdr.Fits()
    modifies sock`outgoing
    ensures ok ==> sock.outgoing == old(sock.outgoing) + EncodeHeader(hdr)
    ensures old(sock.outgoing) <= sock.outgoing
    ensures sock.reliable ==> ok
  {
    var netHdr := NetworkImage(host, hdr);
    assert netHdr == EncodeHeader(hdr) by {
      NetworkImageIsBigEndian(host, hdr);
    }
    ok := SendBytes(sock, netHdr);
  }

  method SendBytes(sock: Socket, data: Bytes) returns (ok: bool)
    modifies sock`outgoing
    ensures ok ==> sock.outgoing == old(sock.outgoing) + data
    ensures old(sock.outgoing) <= sock.outgoing
    ensures sock.reliable && |data| < INT_LIMIT ==> ok
  {
    ok := SendAll(sock, data, |data|);
    assert data[..|data|] == data;
  }

  /** Sends the first `length` bytes of a field when there are any. */
  method SendField(sock: Socket, field: Bytes, length: nat) returns (ok: bool)
    requires length <= |field|
    modifies sock`outgoing
    ensures ok ==> sock.outgoing == old(sock.outgoing) + field[..length]
    ensures old(sock.outgoing) <= sock.outgoing
    ensures sock.reliable && length < INT_LIMIT ==> ok
  {
    ok := true;
    if length > 0 {
      ok := SendAll(sock, field, length);
    }
  }

  method SendMessageMeta(sock: Socket, host: Host, hdr: Header, username: Bytes, filename: Bytes)
    returns (ok: bool)
    requires hdr.Fits() && hdr.usernameLength <= |username| && hdr.filenameLength <= |filename|
    modifies sock`outgoing
    ensures ok ==> sock.outgoing == old(sock.outgoing) + EncodeHeader(hdr)
                   + username[..hdr.usernameLength] + filename[..hdr.filenameLength]
    ensures old(sock.outgoing) <= sock.outgoing
    ensures sock.reliable && hdr.usernameLength < INT_LIMIT && hdr.filenameLength < INT_LIMIT ==> ok
  {
    ok := SendHeader(sock, host, hdr);
    if !ok { return; }
    ok := SendField(sock, username, hdr.usernameLength);
    if !ok { return; }
    ok := SendField(sock, filename, hdr.filenameLength);
  }

  /** `payload` is None for a null pointer. */
  method SendMessage(sock: Socket, host: Host, hdr: Header, username: Bytes, filename: Bytes,
                     payload: Option<Bytes>, payloadSize: nat)
    returns (ok: bool)
    requires hdr.Fits() && hdr.usernameLength <= |username| && hdr.filenameLength <= |filename|
    requires payload.Some? ==> payloadSize <= |payload.value|
    modifies sock`outgoing
    ensures ok ==> sock.outgoing == old(sock.outgoing) + EncodeHeader(hdr)
                   + username[..hdr.usernameLength] + filename[..hdr.filenameLength]
                   + (if hdr.payloadLength > 0 && payload.Some? then payload.value[..payloadSize] else [])
    ensures old(sock.outgoing) <= sock.outgoing
    ensures (&& sock.reliable && hdr.usernameLength < INT_LIMIT && hdr.filenameLength < INT_LIMIT
             && payloadSize < INT_LIMIT) ==> ok
  {
    ok := SendMessageMeta(sock, host, hdr, username, filename);
    if !ok { return; }
    if hdr.payloadLength > 0 && payload.Some? {
      ok := SendAll(sock, payload.value, payloadSize);
    }
  }

  // ----- receiving

  lemma NtohlImage(host: Host, b: Bytes)
    requires |b| == 4
    ensures Htonl(host, FromMemory(host, b)) == FromBigEndian(b)
  {
    Pows();
    FromBigEndianRoundTrip(b);
    FromBigEndianRoundTrip(Reverse(b));
    ReverseTwice(b);
  }

  lemma NtohllImage(host: Host, b: Bytes)
    requires |b| == 8
    ensures Htonll(host, FromMemory(host, b)) == FromBigEndian(b)
  {
    Pows();
    FromBigEndianRoundTrip(b);
    var z := FromBigEndian(b);
    HtonllImage(host, z);
    MemoryRoundTrip(host, Htonll(host, z), 8);
    HtonllInvolution(host, z);
  }

  method RecvHeader(sock: Socket, host: Host) returns (ok: bool, hdr: Header)
    modifies sock`incoming
    ensures Suffix(sock.incoming, old(sock.incoming))
    ensures ok ==> HEADER_SIZE <= |old(sock.incoming)|
    ensures ok ==> hdr == DecodeHeader(old(sock.incoming)[..HEADER_SIZE])
    ensures ok ==> sock.incoming == old(sock.incoming)[HEADER_SIZE..]
    ensures sock.reliable ==> (ok <==> HEADER_SIZE <= |old(sock.incoming)|)
  {
    var image := new byte[HEADER_SIZE](_ => 0);
    hdr := Header(0, 0, 0, 0, 0);
    ok := RecvAll(sock, image, HEADER_SIZE);
    if ok {
      var b := image[..];
      assert b == image[..HEADER_SIZE] == old(sock.incoming)[..HEADER_SIZE];
      hdr := Header(
        Htonl(host, FromMemory(host, b[..4])),
        Htonl(host, FromMemory(host, b[4..8])),
        Htonll(host, FromMemory(host, b[8..16])),
        Htonll(host, FromMemory(host, b[16..24])),
        Htonll(host, FromMemory(host, b[24..32])));
      NtohlImage(host, b[..4]);
      NtohlImage(host, b[4..8]);
      NtohllImage(host, b[8..16]);
      NtohllImage(host, b[16..24]);
      NtohllImage(host, b[24..32]);
    }
  }

  /** resize, then recv_all when there is anything to read. */
  method RecvField(sock: Socket, length: nat) returns (ok: bool, field: Bytes)
    modifies sock`incoming
    ensures Suffix(sock.incoming, old(sock.incoming))
    ensures ok ==> Take(old(sock.incoming), length) == Some((field, sock.incoming))
    ensures sock.reliable && length < INT_LIMIT ==> (ok <==> length <= |old(sock.incoming)|)
  {
    ok, field := true, [];
    if length > 0 {
      var buffer := new byte[length](_ => 0);
      ok := RecvAll(sock, buffer, length);
      field := buffer[..];
      assert buffer[..] == buffer[..length];
    }
  }

  /** The announced field lengths fit in a positive int. */
  predicate SmallMeta(b: Bytes) {
    HEADER_SIZE <= |b| ==>
      var h := DecodeHeader(b[..HEADER_SIZE]);
      h.usernameLength < INT_LIMIT && h.filenameLength < INT_LIMIT
  }

  predicate SmallFrame(b: Bytes) {
    SmallMeta(b) && (HEADER_SIZE <= |b| ==> DecodeHeader(b[..HEADER_SIZE]).payloadLength < INT_LIMIT)
  }

  method RecvMessageMeta(sock: Socket, host: Host)
    returns (ok: bool, hdr: Header, username: Bytes, filename: Bytes)
    modifies sock`incoming
    ensures Suffix(sock.incoming, old(sock.incoming))
    ensures ok ==> ParseMeta(old(sock.incoming)) == Some((hdr, username, filename, sock.incoming))
    ensures sock.reliable && SmallMeta(old(sock.incoming)) ==>
              (ok <==> ParseMeta(old(sock.incoming)).Some?)
  {
    username, filename := [], [];
    ok, hdr := RecvHeader(sock, host);
    if !ok { return; }
    ghost var afterHeader := sock.incoming;
    ok, username := RecvField(sock, hdr.usernameLength);
    SuffixTransitive(sock.incoming, afterHeader, old(sock.incoming));
    if !ok { return; }
    ghost var afterUser := sock.incoming;
    ok, filename := RecvField(sock, hdr.filenameLength);
    SuffixTransitive(sock.incoming, afterUser, old(sock.incoming));
  }

  /** The first three reads are those of recv_message_meta, statement for statement. */
  method RecvMessage(sock: Socket, host: Host) returns (ok: bool, m: Message)
    modifies sock`incoming
    ensures |sock.incoming| <= |old(sock.incoming)|
    ensures ok ==> Parse(old(sock.incoming)) == Some((m, sock.incoming))
    ensures sock.reliable && SmallFrame(old(sock.incoming)) ==>
              (ok <==> Parse(old(sock.incoming)).Some?)
  {
    m := Message(Header(0, 0, 0, 0, 0), [], [], []);
    var hdr, username, filename, payload;
    ok, hdr, username, filename := RecvMessageMeta(sock, host);
    if !ok { return; }
    ok, payload := RecvField(sock, hdr.payloadLength);
    m := Message(hdr, username, filename, payload);
  }
}
