/** What one request means: the session state machine of handle_client over the atomic store. */
module Session {
  import opened Basics
  import opened Paths
  import opened AtomicStore
  import opened Wire
  import opened Network
  import opened Protocol

  const LOGIN: nat := 1
  const UPLOAD: nat := 2
  const DOWNLOAD: nat := 3
  const LIST: nat := 4
  const DELETE: nat := 5
  const RENAME: nat := 6
  const QUIT: nat := 7

  const OK: nat := 200
  const CREATED: nat := 201
  const BAD_REQUEST: nat := 400
  const NOT_FOUND: nat := 404
  const INTERNAL_ERROR: nat := 500

  /** How a listing is turned into text; the order and the times in it are not modelled. */
  type Text = map<Bytes, nat> -> Bytes

  ghost predicate ShortText(text: Text) {
    forall l :: |text(l)| < INT_LIMIT
  }

  /** `Broken`: the header of a download went out and no content follows. */
  datatype Reply = Reply(status: nat, body: Bytes) | Broken(announced: nat)

  /** The store and the session after a request, the reply, and whether the loop goes on. */
  datatype Answer = Answer(store: Store, user: Bytes, reply: Reply, goesOn: bool)

  /** What the filesystem does to one request: whether an upload's file can be created, and
      whether a call throws in a deletion or a rename. */
  datatype Fate = Fate(canOpen: bool, throws: bool)

  const CALM := Fate(true, false)

  function Refusal(s: Store, user: Bytes): Answer {
    Answer(s, user, Reply(BAD_REQUEST, Ascii("Must LOGIN first")), true)
  }

  function ServeUpload(fate: Fate, s: Store, user: Bytes, filename: Bytes, payload: Bytes): Answer {
    if ValidName(filename) && fate.canOpen
    then Answer(Effect(s, Save(Key(user, filename), |payload|), Saved(payload)), user,
                Reply(CREATED, Ascii("File uploaded successfully.")), true)
    else Answer(s, user, Reply(INTERNAL_ERROR, Ascii("Failed to save file.")), true)
  }

  function ServeDownload(s: Store, user: Bytes, filename: Bytes): Answer {
    var k := Key(user, filename);
    if s.Indexed(k).None? then Answer(s, user, Reply(NOT_FOUND, Ascii("File not found.")), true)
    else if ValidName(filename) && k in s.files then Answer(s, user, Reply(OK, s.files[k]), true)
    else Answer(s, user, Broken(s.Indexed(k).value), false)
  }

  function ServeList(text: Text, s: Store, user: Bytes): Answer {
    var l := s.Listing(user);
    Answer(s, user, Reply(OK, if l == map[] then Ascii("(Empty)") else text(l)), true)
  }

  function ServeDelete(fate: Fate, s: Store, user: Bytes, filename: Bytes): Answer {
    var k := Key(user, filename);
    if ValidName(filename) && !fate.throws && k in s.files
    then Answer(Effect(s, Delete(k), Deleted), user,
                Reply(OK, Ascii("File deleted successfully.")), true)
    else Answer(s, user, Reply(NOT_FOUND, Ascii("File not found or cannot be deleted.")), true)
  }

  /** The two names agree as soon as their paths do: then nothing is asked of the filesystem. */
  function ServeRename(fate: Fate, s: Store, user: Bytes, oldName: Bytes, newName: Bytes): Answer {
    var src, dst := Key(user, oldName), Key(user, newName);
    var done := Reply(OK, Ascii("Renamed successfully."));
    if !ValidName(oldName) || !ValidName(newName)
       || (src != dst && (fate.throws || src !in s.files || dst in s.files))
    then Answer(s, user, Reply(NOT_FOUND, Ascii("File not found or new name conflicts.")), true)
    else if src == dst then Answer(s, user, done, true)
    else Answer(Effect(s, Rename(src, dst), Renamed), user, done, true)
  }

  /** One iteration of handle_client once the whole request has arrived. */
  function Serve(text: Text, fate: Fate, s: Store, user: Bytes, m: Message): Answer {
    var cmd := m.hdr.command;
    if cmd == LOGIN then
      Answer(s, m.username, Reply(OK, Ascii("Welcome, ") + m.username + Ascii("!")), true)
    else if cmd == QUIT then Answer(s, user, Reply(OK, Ascii("Goodbye!")), false)
    else if cmd < LOGIN || QUIT < cmd then
      Answer(s, user, Reply(BAD_REQUEST, Ascii("Unknown or unsupported command: UNKNOWN")), true)
    else if user == [] then Refusal(s, user)
    else if cmd == UPLOAD then ServeUpload(fate, s, user, m.filename, m.payload)
    else if cmd == DOWNLOAD then ServeDownload(s, user, m.filename)
    else if cmd == LIST then ServeList(text, s, user)
    else if cmd == DELETE then ServeDelete(fate, s, user, m.filename)
    else ServeRename(fate, s, user, m.filename, m.payload)
  }

  /** An upload whose bytes end early: the store loses the file, the client is told so. */
  function ServeTruncated(fate: Fate, s: Store, user: Bytes, filename: Bytes, size: nat): Answer {
    if user == [] then Refusal(s, user)
    else
      var failed := Reply(INTERNAL_ERROR, Ascii("Failed to save file."));
      if ValidName(filename) && fate.canOpen
      then Answer(Effect(s, Save(Key(user, filename), size), SaveFailed), user, failed, true)
      else Answer(s, user, failed, true)
  }

  function ReplyBytes(cmd: nat, r: Reply): Bytes {
    match r
    case Reply(status, body) => EncodeHeader(Header(cmd, status, |body|, 0, 0)) + body
    case Broken(n) => EncodeHeader(Header(cmd, OK, n, 0, 0))
  }

  /** The answer, the bytes sent and the bytes left of one iteration; `None` when the request
      itself does not arrive and the loop ends. */
  type Next = Option<(Answer, Bytes, Bytes)>

  /** The request once its header and names have been read, `rest` still to come. */
  function ServeRest(text: Text, fate: Fate, s: Store, user: Bytes, h: Header, username: Bytes,
                     filename: Bytes, rest: Bytes): Next
  {
    match Take(rest, h.payloadLength)
    case Some((payload, after)) =>
      var a := Serve(text, fate, s, user, Message(h, username, filename, payload));
      Some((a, ReplyBytes(h.command, a.reply), after))
    case None =>
      if h.command != UPLOAD then None
      else
        var a := ServeTruncated(fate, s, user, filename, h.payloadLength);
        Some((a, ReplyBytes(h.command, a.reply), []))
  }

  /** One iteration over the bytes still to come. */
  function ServeNext(text: Text, fate: Fate, s: Store, user: Bytes, stream: Bytes): Next {
    match ParseMeta(stream)
    case None => None
    case Some((h, username, filename, rest)) =>
      ServeRest(text, fate, s, user, h, username, filename, rest)
  }

  lemma ServeNextShrinks(text: Text, fate: Fate, s: Store, user: Bytes, stream: Bytes)
    requires ServeNext(text, fate, s, user, stream).Some?
    ensures |ServeNext(text, fate, s, user, stream).value.2| < |stream|
  {
  }

  // The fates of a session's requests, in order; calm where none is given.

  function First(fates: seq<Fate>): Fate {
    if fates == [] then CALM else fates[0]
  }

  function Later(fates: seq<Fate>): seq<Fate> {
    if fates == [] then [] else fates[1..]
  }

  /** A whole session over the bytes that will arrive: final store and bytes sent. */
  function ServeAll(text: Text, fates: seq<Fate>, s: Store, user: Bytes, stream: Bytes): (Store, Bytes)
    decreases |stream|
  {
    match ServeNext(text, First(fates), s, user, stream)
    case None => (s, [])
    case Some((a, sent, rest)) =>
      if a.goesOn && |rest| < |stream| then
        var (last, more) := ServeAll(text, Later(fates), a.store, a.user, rest);
        (last, sent + more)
      else (a.store, sent)
  }

  /** A session over whole requests: each is served in turn until one ends it. */
  function ServeEach(text: Text, fates: seq<Fate>, s: Store, user: Bytes, ms: seq<Message>): (Store, Bytes)
    decreases |ms|
  {
    if ms == [] then (s, [])
    else
      var a := Serve(text, First(fates), s, user, ms[0]);
      var sent := ReplyBytes(ms[0].hdr.command, a.reply);
      if a.goesOn then
        var (last, more) := ServeEach(text, Later(fates), a.store, a.user, ms[1..]);
        (last, sent + more)
      else (a.store, sent)
  }

  lemma NextFrame(text: Text, fate: Fate, s: Store, user: Bytes, m: Message, rest: Bytes)
    requires m.Matches()
    ensures var a := Serve(text, fate, s, user, m);
            ServeNext(text, fate, s, user, Encode(m) + rest)
            == Some((a, ReplyBytes(m.hdr.command, a.reply), rest))
  {
    ParseEncode(m, rest);
  }

  /** The session served from the bytes of well-formed requests is the session over the requests. */
  lemma {:induction false} FramesServed(text: Text, fates: seq<Fate>, s: Store, user: Bytes, ms: seq<Message>)
    requires forall i :: 0 <= i < |ms| ==> ms[i].Matches()
    ensures ServeAll(text, fates, s, user, EncodeAll(ms)) == ServeEach(text, fates, s, user, ms)
    decreases |ms|
  {
    if ms == [] {
      assert ServeNext(text, First(fates), s, user, []).None?;
    } else {
      var a := Serve(text, First(fates), s, user, ms[0]);
      var rest := EncodeAll(ms[1..]);
      NextFrame(text, First(fates), s, user, ms[0], rest);
      assert EncodeAll(ms) == Encode(ms[0]) + rest && |rest| < |EncodeAll(ms)|;
      FramesServed(text, Later(fates), a.store, a.user, ms[1..]);
    }
  }

  // ----- what the requests keep

  /** No complete request makes an index entry stale, and the store stays consistent. */
  lemma ServeKeeps(text: Text, fate: Fate, s: Store, user: Bytes, m: Message)
    requires s.Valid()
    ensures Serve(text, fate, s, user, m).store.Valid()
    ensures Serve(text, fate, s, user, m).store.stale.Keys <= s.stale.Keys
  {
  }

  /** The session ends only on QUIT or after a broken download; only LOGIN changes the user. */
  lemma ServeFlow(text: Text, fate: Fate, s: Store, user: Bytes, m: Message)
    ensures var a := Serve(text, fate, s, user, m);
            && (a.goesOn <==> m.hdr.command != QUIT && !a.reply.Broken?)
            && a.user == (if m.hdr.command == LOGIN then m.username else user)
  {
  }

  /** A download breaks off exactly when the entry is stale (or its name was never valid). */
  lemma BrokenExactly(text: Text, fate: Fate, s: Store, user: Bytes, m: Message)
    ensures Serve(text, fate, s, user, m).reply.Broken? <==>
      && m.hdr.command == DOWNLOAD && user != []
      && s.Indexed(Key(user, m.filename)).Some?
      && !(ValidName(m.filename) && Key(user, m.filename) in s.files)
  {
  }
}
