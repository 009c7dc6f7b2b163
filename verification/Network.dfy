/** send_all and recv_all: partial transfers over a byte stream. */
module Network {
  import opened Basics

  const SOCKET_ERROR: int := -1

  /** static_cast<int> of a size_t. */
  function AsInt(x: nat): int {
    var low := x % 0x1_0000_0000;
    if low < 0x8000_0000 then low else low - 0x1_0000_0000
  }

  /** Lengths that fit in a positive int. */
  const INT_LIMIT: nat := 0x8000_0000

  /**
    One end of a connection. `incoming` are the bytes that will still arrive before the
    peer closes, `outgoing` everything sent so far. How many bytes one call moves is up to
    the network; a reliable socket never reports an error.
  */
  class Socket {
    var incoming: Bytes
    var outgoing: Bytes
    const reliable: bool

    constructor (incoming: Bytes, reliable: bool)
      ensures this.incoming == incoming && outgoing == [] && this.reliable == reliable
    {
      this.incoming, outgoing, this.reliable := incoming, [], reliable;
    }

    /** recv(): moves between 1 and `len` bytes, 0 at the end of the stream. */
    method Recv(buffer: array<byte>, offset: nat, len: int) returns (n: int)
      requires offset + len <= buffer.Length && offset <= buffer.Length
      modifies this`incoming, buffer
      ensures n == SOCKET_ERROR || 0 <= n
      ensures reliable && len >= 0 ==> n != SOCKET_ERROR
      ensures n > 0 ==> n <= len && n <= |old(incoming)|
      ensures n > 0 ==> buffer[offset..offset + n] == old(incoming)[..n]
      ensures n <= 0 ==> buffer[..] == old(buffer[..]) && incoming == old(incoming)
      ensures n == 0 ==> len == 0 || incoming == []
      ensures n > 0 ==> incoming == old(incoming)[n..]
      ensures buffer[..offset] == old(buffer[..offset])
      ensures n > 0 ==> buffer[offset + n..] == old(buffer[offset + n..])
    {
      var fails: bool := *;
      if len < 0 || (!reliable && fails) {
        return SOCKET_ERROR;
      }
      if len == 0 || incoming == [] {
        return 0;
      }
      n :| 0 < n <= len && n <= |incoming|;
      forall i | 0 <= i < n {
        buffer[offset + i] := incoming[i];
      }
      incoming := incoming[n..];
    }

    /** send(): takes between 1 and `len` bytes. */
    method Send(data: Bytes, len: int) returns (n: int)
      requires len <= |data|
      modifies this`outgoing
      ensures n == SOCKET_ERROR || 0 <= n
      ensures reliable && len > 0 ==> n > 0
      ensures n > 0 ==> n <= len && outgoing == old(outgoing) + data[..n]
      ensures n <= 0 ==> outgoing == old(outgoing)
    {
      var fails: bool := *;
      if len < 0 || (!reliable && fails) {
        return SOCKET_ERROR;
      }
      if len == 0 {
        return 0;
      }
      n :| 0 < n <= len;
      outgoing := outgoing + data[..n];
    }
  }

  /** Some first bytes of the stream are gone. */
  predicate Suffix(rest: Bytes, stream: Bytes) {
    |rest| <= |stream| && rest == stream[|stream| - |rest|..]
  }

  /** At most `n` first bytes of the stream are gone. */
  predicate Consumed(rest: Bytes, stream: Bytes, n: nat) {
    Suffix(rest, stream) && |stream| <= |rest| + n
  }

  lemma SuffixTransitive(a: Bytes, b: Bytes, c: Bytes)
    requires Suffix(a, b) && Suffix(b, c)
    ensures Suffix(a, c)
  {
  }

  lemma AsIntBelow(x: nat)
    ensures AsInt(x) <= x
    ensures x < INT_LIMIT ==> AsInt(x) == x
  {
  }

  /** All `length` bytes go out in order, or a prefix of them does and the call fails. */
  method SendAll(sock: Socket, data: Bytes, length: nat) returns (ok: bool)
    requires length <= |data|
    modifies sock`outgoing
    ensures ok ==> sock.outgoing == old(sock.outgoing) + data[..length]
    ensures exists n :: 0 <= n <= length && sock.outgoing == old(sock.outgoing) + data[..n]
    ensures sock.reliable && length < INT_LIMIT ==> ok
  {
    var totalSent := 0;
    assert data[..0] == [];
    while totalSent < length
      invariant 0 <= totalSent <= length
      invariant sock.outgoing == old(sock.outgoing) + data[..totalSent]
    {
      AsIntBelow(length - totalSent);
      var bytesSent := sock.Send(data[totalSent..], AsInt(length - totalSent));
      if bytesSent == SOCKET_ERROR {
        return false;
      }
      if bytesSent == 0 {
        return false;
      }
      assert data[..totalSent + bytesSent] == data[..totalSent] + data[totalSent..][..bytesSent];
      totalSent := totalSent + bytesSent;
    }
    return true;
  }

  /** The buffer receives the next `length` bytes of the stream, however the network cut
      them up; on failure some prefix of the stream is gone. */
  method RecvAll(sock: Socket, buffer: array<byte>, length: nat) returns (ok: bool)
    requires length <= buffer.Length
    modifies sock`incoming, buffer
    ensures ok ==> length <= |old(sock.incoming)|
    ensures ok ==> buffer[..length] == old(sock.incoming)[..length]
    ensures ok ==> sock.incoming == old(sock.incoming)[length..]
    ensures ok ==> buffer[length..] == old(buffer[length..])
    ensures Consumed(sock.incoming, old(sock.incoming), length)
    ensures sock.reliable && length < INT_LIMIT && !ok ==> sock.incoming == []
    ensures sock.reliable && length < INT_LIMIT ==> (ok <==> length <= |old(sock.incoming)|)
  {
    ghost var stream := sock.incoming;
    var totalReceived := 0;
    while totalReceived < length
      invariant 0 <= totalReceived <= length && totalReceived <= |stream|
      invariant sock.incoming == stream[totalReceived..]
      invariant buffer[..totalReceived] == stream[..totalReceived]
      invariant buffer[length..] == old(buffer[length..])
    {
      AsIntBelow(length - totalReceived);
      var bytesReceived := sock.Recv(buffer, totalReceived, AsInt(length - totalReceived));
      if bytesReceived == SOCKET_ERROR {
        return false;
      }
      if bytesReceived == 0 {
        return false;
      }
      ghost var next := totalReceived + bytesReceived;
      assert buffer[..next] == buffer[..totalReceived] + buffer[totalReceived..next];
      assert stream[..next] == stream[..totalReceived] + stream[totalReceived..][..bytesReceived];
      assert buffer[length..] == buffer[next..][length - next..];
      assert old(buffer[length..]) == old(buffer[..])[length..];
      totalReceived := totalReceived + bytesReceived;
    }
    return true;
  }
}
