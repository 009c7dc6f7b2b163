/** Sessions that the assumptions on a client's bytes admit. */
module GoodSessions {
  import opened Basics
  import opened Paths
  import opened AtomicStore
  import opened Wire
  import opened Network
  import opened Protocol
  import opened Session
  import opened Client
  import opened Server

  /** A frame before good input is good input, if reading may resume wherever it could stop. */
  lemma GoodFrame(p: Platform, reliable: bool, m: Message, rest: Bytes, n: nat)
    requires m.Matches() && (MayLeak(m.hdr.command) ==> n > 0)
    requires GoodRequest(p, reliable, Encode(m) + rest)
    requires forall i :: 0 <= i <= |m.payload| && Resumes(reliable, m.hdr, i) ==>
      GoodInput(p, reliable, m.payload[i..] + rest, if MayLeak(m.hdr.command) then n - 1 else n)
    ensures GoodInput(p, reliable, Encode(m) + rest, n)
  {
    FrameHead(m, rest);
    var stream := Encode(m) + rest;
    var after := m.payload + rest;
    forall i | 0 <= i <= |after| && Resumes(reliable, m.hdr, i)
      ensures GoodInput(p, reliable, after[i..], if MayLeak(m.hdr.command) then n - 1 else n)
    {
      assert after[i..] == m.payload[i..] + rest;
    }
    GoodBehind(p, reliable, stream, n, m.hdr, m.username, m.filename, after);
  }

  lemma GoodBehind(p: Platform, reliable: bool, stream: Bytes, n: nat, h: Header, username: Bytes,
                   filename: Bytes, after: Bytes)
    requires GoodRequest(p, reliable, stream) && (MayLeak(h.command) ==> n > 0)
    requires ParseMeta(stream) == Some((h, username, filename, after))
    requires forall i :: 0 <= i <= |after| && Resumes(reliable, h, i) ==>
      GoodInput(p, reliable, after[i..], if MayLeak(h.command) then n - 1 else n)
    ensures GoodInput(p, reliable, stream, n)
  {
  }

  /** A request whose parts respect the limits. */
  predicate Small(p: Platform, m: Message) {
    && m.Matches() && |m.username| < INT_LIMIT && |m.filename| < INT_LIMIT
    && |m.payload| < (if m.hdr.command == UPLOAD then ABSENT else INT_LIMIT)
    && GoodNames(p, true, m.hdr.command, m.username, m.filename, m.payload)
  }

  /** How many of the requests may leak a reference. */
  function Leaky(ms: seq<Message>): nat {
    if ms == [] then 0 else (if MayLeak(ms[0].hdr.command) then 1 else 0) + Leaky(ms[1..])
  }

  /** On a reliable connection any sequence of such requests is good input. */
  lemma {:induction false} FramesGood(p: Platform, ms: seq<Message>, n: nat)
    requires (forall i :: 0 <= i < |ms| ==> Small(p, ms[i])) && Leaky(ms) <= n
    ensures GoodInput(p, true, EncodeAll(ms), n)
    decreases |ms|
  {
    if ms == [] {
      GoodNothing(p, true, n);
    } else {
      var m, rest := ms[0], EncodeAll(ms[1..]);
      FramesGood(p, ms[1..], if MayLeak(m.hdr.command) then n - 1 else n);
      FrameGood(p, m, rest);
      assert m.payload[|m.payload|..] + rest == rest;
      GoodFrame(p, true, m, rest, n);
    }
  }

  lemma FrameHead(m: Message, rest: Bytes)
    requires m.Matches()
    ensures HEADER_SIZE <= |Encode(m) + rest| && DecodeHeader((Encode(m) + rest)[..HEADER_SIZE]) == m.hdr
    ensures ParseMeta(Encode(m) + rest) == Some((m.hdr, m.username, m.filename, m.payload + rest))
  {
    var stream := Encode(m) + rest;
    assert stream == EncodeHeader(m.hdr) + m.username + m.filename + (m.payload + rest);
    assert stream[..HEADER_SIZE] == EncodeHeader(m.hdr);
    MetaRoundTrip(m.hdr, m.username, m.filename, m.payload + rest);
    HeaderRoundTrip(m.hdr);
  }

  lemma FrameGood(p: Platform, m: Message, rest: Bytes)
    requires Small(p, m)
    ensures GoodRequest(p, true, Encode(m) + rest)
  {
    FrameHead(m, rest);
    assert SmallMeta(Encode(m) + rest);
  }

  lemma {:induction false} FirstByteWeighs(b: Bytes)
    requires b != []
    ensures FromBigEndian(b) >= b[0] * Pow256(|b| - 1)
  {
    if |b| > 1 {
      var h := b[..|b| - 1];
      FirstByteWeighs(h);
      assert 256 * (b[0] * Pow256(|h| - 1)) == b[0] * Pow256(|b| - 1) by {
        assert Pow256(|b| - 1) == 256 * Pow256(|h| - 1);
      }
    } else {
      assert b[..0] == [];
    }
  }

  /** Read one byte too early, the file name's length becomes the top of the user name's. */
  lemma Misread(b: byte, m: Message)
    requires m.Matches() && 0 < |m.filename| < 256 && |Encode(m)| < 0x1_0000
    ensures ParseMeta([b] + Encode(m)).None?
  {
    var stream := [b] + Encode(m);
    var image := stream[..HEADER_SIZE];
    var name := image[24..32];
    var lengths := BigEndian(m.hdr.filenameLength, 8);
    assert lengths == BigEndian(m.hdr.filenameLength / 256, 7) + [m.hdr.filenameLength % 256];
    assert name[0] == EncodeHeader(m.hdr)[23] == lengths[7] == |m.filename|;
    FirstByteWeighs(name);
    SeventhPower();
    assert |m.filename| * Pow256(7) >= Pow256(7);
    assert DecodeHeader(image).usernameLength > |stream|;
  }

  lemma SeventhPower()
    ensures Pow256(7) == 256 * 256 * 256 * U32
  {
    Pows();
    assert Pow256(5) == 256 * Pow256(4);
    assert Pow256(6) == 256 * Pow256(5);
    assert Pow256(7) == 256 * Pow256(6);
  }

  /** A session on a failing connection: log in, upload one byte, download it again. */
  lemma LoginUploadDownload(p: Platform, user: Bytes, file: Bytes, b: byte)
    requires PlainUser(p, user) && PlainIfValid(p, file) && |user| < 256 && 0 < |file| < 256
    ensures var login := RequestOf([], Login(user));
            var upload := RequestOf(user, Upload(file, [b]));
            var download := RequestOf(user, Download(file, true));
            && GoodInput(p, false, EncodeAll([login, upload, download]), 2)
            && ParseAll(EncodeAll([login, upload, download])) == Some([login, upload, download])
  {
    var login := RequestOf([], Login(user));
    var upload := RequestOf(user, Upload(file, [b]));
    var download := RequestOf(user, Download(file, true));
    FramesDecode([login, upload, download]);
    GoodUpload(p, user, file, b);
    GoodLoginFrame(p, user, Encode(upload) + Encode(download));
    ThreeFrames(login, upload, download);
  }

  lemma ThreeFrames(a: Message, b: Message, c: Message)
    ensures EncodeAll([a, b, c]) == Encode(a) + (Encode(b) + Encode(c))
  {
    assert [a, b, c][1..] == [b, c] && [b, c][1..] == [c];
    assert EncodeAll([c]) == Encode(c);
  }

  lemma GoodLoginFrame(p: Platform, user: Bytes, rest: Bytes)
    requires PlainUser(p, user) && |user| < 256 && GoodInput(p, false, rest, 2)
    ensures GoodInput(p, false, Encode(RequestOf([], Login(user))) + rest, 2)
  {
    var login := RequestOf([], Login(user));
    ParseEncode(login, rest);
    assert login.payload[0..] + rest == rest;
    GoodFrame(p, false, login, rest, 2);
  }

  lemma GoodDownload(p: Platform, user: Bytes, file: Bytes)
    requires PlainIfValid(p, file) && |user| < 256 && |file| < 256
    ensures GoodInput(p, false, Encode(RequestOf(user, Download(file, true))), 1)
  {
    var download := RequestOf(user, Download(file, true));
    ParseEncode(download, []);
    GoodNothing(p, false, 0);
    assert download.payload[0..] + [] == [];
    assert Encode(download) + [] == Encode(download);
    GoodFrame(p, false, download, [], 1);
  }

  lemma GoodUpload(p: Platform, user: Bytes, file: Bytes, b: byte)
    requires PlainIfValid(p, file) && |user| < 256 && 0 < |file| < 256
    ensures GoodInput(p, false, Encode(RequestOf(user, Upload(file, [b])))
                             + Encode(RequestOf(user, Download(file, true))), 2)
  {
    var upload := RequestOf(user, Upload(file, [b]));
    var download := RequestOf(user, Download(file, true));
    ParseEncode(upload, Encode(download));
    GoodDownload(p, user, file);
    Misread(b, download);
    assert upload.payload[0..] + Encode(download) == [b] + Encode(download);
    assert upload.payload[1..] + Encode(download) == Encode(download);
    forall i | 0 <= i <= |upload.payload| && Resumes(false, upload.hdr, i)
      ensures GoodInput(p, false, upload.payload[i..] + Encode(download), 1)
    {
      assert i == 0 || i == 1;
    }
    GoodFrame(p, false, upload, Encode(download), 2);
  }
}
