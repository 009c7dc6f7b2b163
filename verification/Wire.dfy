/** The wire format: a fixed header in network byte order, then the fields it announces. */
module Wire {
  import opened Basics

  const U32: nat := 0x1_0000_0000
  const U64: nat := 0x1_0000_0000_0000_0000
  const HEADER_SIZE: nat := 32

  // ----- unsigned integers as bytes

  /** The `n` low-order bytes of `x`, most significant first. */
  function BigEndian(x: nat, n: nat): (b: Bytes)
    ensures |b| == n
  {
    if n == 0 then [] else BigEndian(x / 256, n - 1) + [x % 256]
  }

  function FromBigEndian(b: Bytes): nat {
    if b == [] then 0 else FromBigEndian(b[..|b| - 1]) * 256 + b[|b| - 1]
  }

  function Reverse(b: Bytes): (r: Bytes)
    ensures |r| == |b|
    ensures forall i :: 0 <= i < |b| ==> r[i] == b[|b| - 1 - i]
  {
    if b == [] then [] else Reverse(b[1..]) + [b[0]]
  }

  function Pow256(n: nat): (p: nat)
    ensures p > 0
  {
    if n == 0 then 1 else 256 * Pow256(n - 1)
  }

  lemma {:induction false} BigEndianRoundTrip(x: nat, n: nat)
    requires x < Pow256(n)
    ensures FromBigEndian(BigEndian(x, n)) == x
  {
    if n > 0 {
      assert x / 256 < Pow256(n - 1);
      BigEndianRoundTrip(x / 256, n - 1);
      var b := BigEndian(x, n);
      assert b[..n - 1] == BigEndian(x / 256, n - 1);
    }
  }

  lemma {:induction false} FromBigEndianRoundTrip(b: Bytes)
    ensures FromBigEndian(b) < Pow256(|b|)
    ensures BigEndian(FromBigEndian(b), |b|) == b
  {
    if b != [] {
      var h := b[..|b| - 1];
      FromBigEndianRoundTrip(h);
      var x := FromBigEndian(b);
      assert x / 256 == FromBigEndian(h) && x % 256 == b[|b| - 1];
      assert b == h + [b[|b| - 1]];
    }
  }

  /** Byte by byte: the digits of the number to the base 256, the highest first. */
  lemma {:induction false} BigEndianDigits(x: nat, n: nat, i: nat)
    requires i < n
    ensures BigEndian(x, n)[i] == x / Pow256(n - 1 - i) % 256
  {
    if i < n - 1 {
      BigEndianDigits(x / 256, n - 1, i);
      DivTwice(x, Pow256(n - 2 - i));
    }
  }

  lemma DivTwice(x: nat, p: nat)
    requires p > 0
    ensures x / 256 / p == x / (256 * p)
  {
    var q := x / 256 / p;
    var r := x / 256 - q * p;
    assert 0 <= r < p;
    var y := 256 * r + x % 256;
    assert x == q * (256 * p) + y by {
      assert 256 * (q * p) == q * (256 * p);
    }
    assert 0 <= y < 256 * p;
    DivUnique(x, 256 * p, q, y);
  }

  lemma DivUnique(x: nat, d: nat, q: nat, y: nat)
    requires d > 0 && x == q * d + y && y < d
    ensures x / d == q
  {
    var k := q - x / d;
    Distribute(q, x / d, d);
    assert k * d == x % d - y;
    if k > 0 {
      AtLeast(k, d);
    } else if k < 0 {
      AtLeast(-k, d);
    }
  }

  lemma Distribute(a: int, b: int, d: int)
    ensures (a - b) * d == a * d - b * d
  {
  }

  lemma AtLeast(k: int, d: int)
    requires k > 0 && d > 0
    ensures k * d >= d
  {
  }

  /** A number is its high part followed by its low part. */
  lemma {:induction false} BigEndianSplit(hi: nat, lo: nat, m: nat, n: nat)
    requires lo < Pow256(n)
    ensures BigEndian(hi * Pow256(n) + lo, m + n) == BigEndian(hi, m) + BigEndian(lo, n)
  {
    if n > 0 {
      var p := Pow256(n - 1);
      var x := hi * Pow256(n) + lo;
      assert hi * Pow256(n) == 256 * (hi * p) by {
        assert hi * (256 * p) == 256 * (hi * p);
      }
      assert x / 256 == hi * p + lo / 256;
      assert x % 256 == lo % 256;
      assert lo / 256 < p;
      BigEndianSplit(hi, lo / 256, m, n - 1);
    }
  }

  // ----- htonl and htonll on a host of either byte order

  datatype Host = LittleEndian | BigEndianHost

  /** The bytes of an `n`-byte integer in the host's memory, and back. */
  function InMemory(host: Host, x: nat, n: nat): (b: Bytes)
    ensures |b| == n
  {
    if host.LittleEndian? then Reverse(BigEndian(x, n)) else BigEndian(x, n)
  }

  function FromMemory(host: Host, b: Bytes): nat {
    if host.LittleEndian? then FromBigEndian(Reverse(b)) else FromBigEndian(b)
  }

  /** htonl: the integer whose memory image is `x` in network byte order. */
  function Htonl(host: Host, x: nat): nat {
    FromMemory(host, BigEndian(x, 4))
  }

  /** The htonll macro; ntohll is the same macro. */
  function Htonll(host: Host, x: nat): nat
  {
    if Htonl(host, 1) == 1 then x
    else Htonl(host, x % U32) * U32 + Htonl(host, x / U32)
  }

  lemma Pows()
    ensures Pow256(4) == U32 && Pow256(8) == U64
  {
    assert Pow256(1) == 256 && Pow256(2) == 65536 && Pow256(3) == 16777216;
    assert Pow256(4) == U32;
    assert Pow256(5) == 256 * U32 && Pow256(6) == 65536 * U32 && Pow256(7) == 16777216 * U32;
  }

  lemma {:induction false} ReverseTwice(b: Bytes)
    ensures Reverse(Reverse(b)) == b
  {
  }

  lemma MemoryRoundTrip(host: Host, x: nat, n: nat)
    requires x < Pow256(n)
    ensures FromMemory(host, InMemory(host, x, n)) == x
  {
    ReverseTwice(BigEndian(x, n));
    BigEndianRoundTrip(x, n);
  }

  lemma FromMemoryRoundTrip(host: Host, b: Bytes)
    ensures FromMemory(host, b) < Pow256(|b|) && InMemory(host, FromMemory(host, b), |b|) == b
  {
    FromBigEndianRoundTrip(b);
    FromBigEndianRoundTrip(Reverse(b));
    ReverseTwice(b);
  }

  /** A field passed through htonl lies in memory in network byte order. */
  lemma HtonlImage(host: Host, x: nat)
    ensures Htonl(host, x) < U32
    ensures InMemory(host, Htonl(host, x), 4) == BigEndian(x, 4)
  {
    Pows();
    FromMemoryRoundTrip(host, BigEndian(x, 4));
  }

  /** On a little-endian host the macro's test takes the second branch. */
  lemma HtonlOne(host: Host)
    ensures Htonl(host, 1) == 1 <==> host == BigEndianHost
  {
    var b := BigEndian(1, 4);
    assert b == BigEndian(0, 3) + [1] && BigEndian(0, 3) == BigEndian(0, 2) + [0];
    assert BigEndian(0, 2) == BigEndian(0, 1) + [0] && BigEndian(0, 1) == [0];
    assert b[0] == 0 && b[3] == 1;
    Pows();
    HtonlImage(host, 1);
    BigEndianRoundTrip(1, 4);
  }

  lemma {:induction false} ReverseConcat(a: Bytes, b: Bytes)
    ensures Reverse(a + b) == Reverse(b) + Reverse(a)
  {
  }

  /** The swapped halves, each converted, are the whole number in network byte order. */
  lemma SwappedHalves(hi: nat, lo: nat)
    requires hi < U32 && lo < U32
    ensures var y := Htonl(LittleEndian, lo) * U32 + Htonl(LittleEndian, hi);
            y < U64 && InMemory(LittleEndian, y, 8) == BigEndian(hi * U32 + lo, 8)
  {
    Pows();
    var a, b := Htonl(LittleEndian, lo), Htonl(LittleEndian, hi);
    HtonlImage(LittleEndian, lo);
    HtonlImage(LittleEndian, hi);
    BigEndianSplit(a, b, 4, 4);
    BigEndianSplit(hi, lo, 4, 4);
    ReverseConcat(BigEndian(a, 4), BigEndian(b, 4));
  }

  lemma Halves(x: nat) returns (hi: nat, lo: nat)
    requires x < U64
    ensures x == hi * U32 + lo && hi < U32 && lo < U32
  {
    hi, lo := x / U32, x % U32;
  }

  lemma HtonllIs(host: Host, hi: nat, lo: nat)
    requires lo < U32
    ensures Htonll(host, hi * U32 + lo) ==
            if host.LittleEndian? then Htonl(host, lo) * U32 + Htonl(host, hi) else hi * U32 + lo
  {
    HtonlOne(host);
    var x := hi * U32 + lo;
    assert x / U32 == hi && x % U32 == lo;
  }

  /** The same for the 64-bit macro, on a host of either byte order. */
  lemma HtonllImage(host: Host, x: nat)
    requires x < U64
    ensures Htonll(host, x) < U64
    ensures InMemory(host, Htonll(host, x), 8) == BigEndian(x, 8)
  {
    var hi, lo := Halves(x);
    HtonllIs(host, hi, lo);
    if host.LittleEndian? {
      SwappedHalves(hi, lo);
    }
  }

  /** ntohll undoes htonll. */
  lemma HtonllInvolution(host: Host, x: nat)
    requires x < U64
    ensures Htonll(host, Htonll(host, x)) == x
  {
    Pows();
    var y := Htonll(host, x);
    HtonllImage(host, x);
    HtonllImage(host, y);
    MemoryRoundTrip(host, y, 8);
    MemoryRoundTrip(host, x, 8);
    HtonlOne(host);
    if host.LittleEndian? {
      ReverseTwice(BigEndian(x, 8));
      ReverseTwice(BigEndian(y, 8));
      assert BigEndian(y, 8) == Reverse(BigEndian(x, 8));
      MemoryRoundTrip(host, Htonll(host, y), 8);
    }
  }

  lemma HtonlInvolution(host: Host, x: nat)
    requires x < U32
    ensures Htonl(host, Htonl(host, x)) == x
  {
    Pows();
    var y := Htonl(host, x);
    HtonlImage(host, x);
    HtonlImage(host, y);
    MemoryRoundTrip(host, y, 4);
    MemoryRoundTrip(host, x, 4);
    ReverseTwice(BigEndian(x, 4));
    ReverseTwice(BigEndian(y, 4));
    MemoryRoundTrip(host, Htonl(host, y), 4);
  }
}
