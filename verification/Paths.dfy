/** File names, path keys and index keys. */
module Paths {
  import opened Basics

  const SLASH: byte := 47
  const BACKSLASH: byte := 92
  const DOT: byte := 46

  predicate Separator(c: byte) {
    c == SLASH || c == BACKSLASH
  }

  /** `s.find(p) != npos` for two adjacent bytes. */
  predicate HasPair(s: Bytes, a: byte, b: byte) {
    exists i :: 0 <= i < |s| - 1 && s[i] == a && s[i + 1] == b
  }

  /** A user name that is one path component. */
  predicate SimpleUser(u: Bytes) {
    && u != [] && u != [DOT] && u != [DOT, DOT]
    && forall i :: 0 <= i < |u| ==> !Separator(u[i])
  }

  /** The file names the code accepts. */
  predicate ValidName(n: Bytes) {
    && n != [] && n != [DOT]
    && (forall i :: 0 <= i < |n| ==> !Separator(n[i]))
    && !HasPair(n, DOT, DOT)
  }

  /** is_valid_filename, test by test. */
  method IsValidFilename(filename: Bytes) returns (ok: bool)
    ensures ok == ValidName(filename)
    ensures ok <==>
      && filename != [] && filename != [46]
      && (forall i :: 0 <= i < |filename| ==> filename[i] != 47 && filename[i] != 92)
      && forall i :: 0 <= i < |filename| - 1 ==> !(filename[i] == 46 && filename[i + 1] == 46)
  {
    if filename == [] || filename == [DOT] || filename == [DOT, DOT] {
      if filename == [DOT, DOT] {
        assert filename[0] == DOT && filename[0 + 1] == DOT;
      }
      return false;
    }
    var i := 0;
    while i < |filename|
      invariant 0 <= i <= |filename|
      invariant forall j :: 0 <= j < i ==> !Separator(filename[j])
    {
      if Separator(filename[i]) {
        return false;
      }
      i := i + 1;
    }
    i := 0;
    while i + 1 < |filename|
      invariant 0 <= i < |filename|
      invariant forall j :: 0 <= j < i ==> !(filename[j] == DOT && filename[j + 1] == DOT)
    {
      if filename[i] == DOT && filename[i + 1] == DOT {
        return false;
      }
      i := i + 1;
    }
    return true;
  }

  // ----- path keys: fs::path("storage") / user / name

  const COLON: byte := 58

  predicate Letter(c: byte) {
    65 <= c <= 90 || 97 <= c <= 122
  }

  /** How the host writes paths. */
  datatype Platform = Posix | Windows {
    function Sep(): (c: byte)
      ensures Separator(c)
    {
      if Posix? then SLASH else BACKSLASH
    }

    /** The root name of a path that does not begin with two separators: a drive designator. */
    function Root(p: Bytes): (r: Bytes)
      ensures r <= p
    {
      if Windows? && |p| >= 2 && Letter(p[0]) && p[1] == COLON then p[..2] else []
    }

    /** `p / q` for a `q` without separators: another root name replaces `p`. */
    function Join(p: Bytes, q: Bytes): Bytes {
      if Root(q) != [] && Root(q) != Root(p) then q
      else p + (if HasFilename(p) then [Sep()] else []) + q[|Root(q)|..]
    }

    /** `p.has_filename()`. */
    predicate HasFilename(p: Bytes) {
      |p| > |Root(p)| && !Separator(p[|p| - 1])
    }
  }

  /** `path.string()`: the key of the lock table. */
  function PathKey(f: Platform, k: Key): Bytes {
    f.Join(f.Join(Ascii("storage"), k.user), k.name)
  }

  function StrLen(p: Bytes): (n: nat)
    ensures n <= |p| && (forall i :: 0 <= i < n ==> p[i] != 0) && (n < |p| ==> p[n] == 0)
  {
    if p == [] || p[0] == 0 then 0 else 1 + StrLen(p[1..])
  }

  /** What a system call is given of a path: the bytes before the first NUL. */
  function CString(p: Bytes): Bytes {
    p[..StrLen(p)]
  }

  /** The file that opening, removing or renaming the key's path reaches. */
  function FileName(f: Platform, k: Key): Bytes {
    CString(PathKey(f, k))
  }

  /** Names that are taken for what they are: no drive designator, no NUL. */
  predicate PlainName(f: Platform, n: Bytes) {
    f.Root(n) == [] && 0 !in n
  }

  predicate PlainUser(f: Platform, u: Bytes) {
    SimpleUser(u) && PlainName(f, u)
  }

  /** A valid name is plain; an invalid one reaches no path. */
  predicate PlainIfValid(f: Platform, n: Bytes) {
    ValidName(n) ==> PlainName(f, n)
  }

  /** Where the files of a user are. */
  function Home(f: Platform, u: Bytes): Bytes {
    Ascii("storage") + [f.Sep()] + u
  }

  /** A name with a drive designator leaves its user's directory, any other stays inside. */
  lemma PathKeyIs(f: Platform, k: Key)
    requires PlainUser(f, k.user)
    ensures PathKey(f, k) == if f.Root(k.name) != [] then k.name else Home(f, k.user) + [f.Sep()] + k.name
  {
    var storage, lit := Ascii("storage"), "storage";
    assert storage[1] == lit[1] as int && storage[6] == lit[6] as int && storage[1] != COLON;
    var home := Home(f, k.user);
    assert f.Root(storage) == [];
    assert k.user[0..] == k.user;
    assert f.Join(storage, k.user) == home;
    assert home[1] == storage[1] && home[|home| - 1] == k.user[|k.user| - 1];
    assert k.name[0..] == k.name;
  }

  /** Two words that avoid `sep` are recovered from their join. */
  lemma {:induction false} SplitUnique(sep: byte, a: Bytes, b: Bytes, c: Bytes, d: Bytes)
    requires forall i :: 0 <= i < |a| ==> a[i] != sep
    requires forall i :: 0 <= i < |c| ==> c[i] != sep
    requires a + [sep] + b == c + [sep] + d
    ensures a == c && b == d
  {
    var l, r := a + [sep] + b, c + [sep] + d;
    assert l[|a|] == sep && r[|c|] == sep;
    assert forall i :: 0 <= i < |a| ==> l[i] == a[i];
    assert forall i :: 0 <= i < |c| ==> r[i] == c[i];
    assert |a| == |c|;
    assert a == l[..|a|] && c == r[..|a|];
    assert b == l[|a| + 1..] && d == r[|a| + 1..];
  }

  lemma HomesApart(f: Platform, j: Key, k: Key)
    requires SimpleUser(j.user) && SimpleUser(k.user)
    requires Home(f, j.user) + [f.Sep()] + j.name == Home(f, k.user) + [f.Sep()] + k.name
    ensures j == k
  {
    var p, sep := Ascii("storage") + [f.Sep()], f.Sep();
    var l, r := Home(f, j.user) + [sep] + j.name, Home(f, k.user) + [sep] + k.name;
    assert j.user + [sep] + j.name == l[|p|..] && k.user + [sep] + k.name == r[|p|..];
    SplitUnique(sep, j.user, j.name, k.user, k.name);
  }

  lemma NoSeparator(f: Platform, n: Bytes, u: Bytes, m: Bytes)
    requires forall i :: 0 <= i < |n| ==> !Separator(n[i])
    ensures n != Home(f, u) + [f.Sep()] + m
  {
    assert (Home(f, u) + [f.Sep()] + m)[7] == f.Sep();
  }

  /** Two files share a lock entry exactly when their names are equal and belong to one user or
      name a drive. */
  lemma SameLock(f: Platform, j: Key, k: Key)
    requires PlainUser(f, j.user) && PlainUser(f, k.user) && ValidName(j.name) && ValidName(k.name)
    ensures PathKey(f, j) == PathKey(f, k) <==>
            j.name == k.name && (j.user == k.user || f.Root(j.name) != [])
  {
    PathKeyIs(f, j);
    PathKeyIs(f, k);
    NoSeparator(f, j.name, k.user, k.name);
    NoSeparator(f, k.name, j.user, j.name);
    if PathKey(f, j) == PathKey(f, k) && f.Root(j.name) == [] {
      HomesApart(f, j, k);
    }
  }

  lemma CStringOf(p: Bytes, q: Bytes)
    requires 0 !in p
    ensures CString(p + q) == p + CString(q)
  {
    var r, m := p + q, StrLen(p + q);
    assert forall i :: 0 <= i < |p| ==> r[i] in p;
    assert forall i :: 0 <= i < |q| ==> r[|p| + i] == q[i];
    assert |p| <= m && (StrLen(q) < |q| ==> r[|p| + StrLen(q)] == 0);
    assert m == |p| + StrLen(q);
  }

  lemma NoNul(f: Platform, u: Bytes)
    requires 0 !in u
    ensures 0 !in Home(f, u) + [f.Sep()]
  {
    var lit := "storage";
    assert forall i :: 0 <= i < 7 ==> Ascii(lit)[i] == lit[i] as int;
  }

  lemma FileNameIs(f: Platform, k: Key)
    requires PlainUser(f, k.user)
    ensures f.Root(CString(k.name)) == f.Root(k.name)
    ensures FileName(f, k) == if f.Root(k.name) != [] then CString(k.name)
                              else Home(f, k.user) + [f.Sep()] + CString(k.name)
  {
    PathKeyIs(f, k);
    NoNul(f, k.user);
    CStringOf(Home(f, k.user) + [f.Sep()], k.name);
    if f.Root(k.name) != [] {
      var tail := k.name[2..];
      assert k.name == [k.name[0], k.name[1]] + tail;
      CStringOf([k.name[0], k.name[1]], tail);
    }
  }

  /** Two names share a file exactly when they agree up to their first NUL and belong to one user
      or name a drive. */
  lemma SameFile(f: Platform, j: Key, k: Key)
    requires PlainUser(f, j.user) && PlainUser(f, k.user) && ValidName(j.name) && ValidName(k.name)
    ensures FileName(f, j) == FileName(f, k) <==>
            CString(j.name) == CString(k.name) && (j.user == k.user || f.Root(j.name) != [])
  {
    FileNameIs(f, j);
    FileNameIs(f, k);
    var a, b := Key(j.user, CString(j.name)), Key(k.user, CString(k.name));
    NoSeparator(f, a.name, b.user, b.name);
    NoSeparator(f, b.name, a.user, a.name);
    if FileName(f, j) == FileName(f, k) && f.Root(j.name) == [] {
      HomesApart(f, a, b);
    }
  }

  /** Plain names have paths and files of their own, and the path is the file's. */
  lemma PlainApart(f: Platform, j: Key, k: Key)
    requires PlainUser(f, j.user) && PlainUser(f, k.user) && PlainName(f, j.name) && PlainName(f, k.name)
    ensures FileName(f, j) == PathKey(f, j)
    ensures PathKey(f, j) == PathKey(f, k) ==> j == k
  {
    FileNameIs(f, j);
    PathKeyIs(f, j);
    PathKeyIs(f, k);
    if PathKey(f, j) == PathKey(f, k) {
      HomesApart(f, j, k);
    }
  }

  lemma LongerName(n: Bytes)
    requires 0 in n
    ensures CString(n + [0]) == CString(n)
  {
    var c, d := CString(n), n[|CString(n)|..];
    assert c != n && n == c + d && n + [0] == c + (d + [0]);
    CStringOf(c, d + [0]);
  }

  /** No other valid name has this property: each shares its file with another one. */
  lemma NotPlainShares(f: Platform, k: Key) returns (j: Key)
    requires PlainUser(f, k.user) && ValidName(k.name) && !PlainName(f, k.name)
    ensures PlainUser(f, j.user) && ValidName(j.name) && j != k && FileName(f, j) == FileName(f, k)
  {
    if f.Root(k.name) != [] {
      j := Key(k.user + k.user, k.name);
      assert j.user[0] == k.user[0] && (|k.user| == 1 ==> k.user == [j.user[0]]);
    } else {
      j := Key(k.user, k.name + [0]);
      LongerName(k.name);
    }
    SameFile(f, j, k);
  }

  /** On Windows the name C:b is one file, with one lock, for all users. */
  lemma DriveShared(u: Bytes, v: Bytes)
    requires PlainUser(Windows, u) && PlainUser(Windows, v)
    ensures var n := [67, COLON, 98];
            ValidName(n) && PathKey(Windows, Key(u, n)) == PathKey(Windows, Key(v, n)) == n
  {
    PathKeyIs(Windows, Key(u, [67, COLON, 98]));
    PathKeyIs(Windows, Key(v, [67, COLON, 98]));
  }

  /** On either host a, and a followed by a NUL and b, are one file under two locks. */
  lemma NulShared(f: Platform, u: Bytes)
    requires PlainUser(f, u)
    ensures var j, k := Key(u, [97, 0, 98]), Key(u, [97]);
            && ValidName(j.name) && ValidName(k.name)
            && PathKey(f, j) != PathKey(f, k) && FileName(f, j) == FileName(f, k)
  {
    var j, k := Key(u, [97, 0, 98]), Key(u, [97]);
    CStringOf(k.name, [0, 98]);
    assert j.name == k.name + [0, 98];
    SameLock(f, j, k);
    SameFile(f, j, k);
  }

  // ----- where a path leads

  /** The components between separators. */
  function Split(p: Bytes): (cs: seq<Bytes>)
    ensures cs != []
  {
    if p == [] then [[]]
    else
      var cs := Split(p[1..]);
      if Separator(p[0]) then [[]] + cs else [[p[0]] + cs[0]] + cs[1..]
  }

  /** From the directory `at` by one component: nothing and `.` stay, `..` goes up. */
  function Enter(at: seq<Bytes>, c: Bytes): seq<Bytes> {
    if c == [] || c == [DOT] then at
    else if c == [DOT, DOT] then (if at == [] then [] else at[..|at| - 1])
    else at + [c]
  }

  function Walk(at: seq<Bytes>, cs: seq<Bytes>): seq<Bytes>
    decreases |cs|
  {
    if cs == [] then at else Walk(Enter(at, cs[0]), cs[1..])
  }

  /** The path with its `.` and `..` folded away. */
  function Resolve(p: Bytes): seq<Bytes> {
    Walk([], Split(p))
  }

  predicate Word(n: Bytes) {
    forall i :: 0 <= i < |n| ==> !Separator(n[i])
  }

  lemma {:induction false} SplitAt(a: Bytes, c: byte, b: Bytes)
    requires Word(a) && Separator(c)
    ensures Split(a + [c] + b) == [a] + Split(b)
  {
    var p := a + [c] + b;
    if a == [] {
      assert p[1..] == b;
    } else {
      SplitAt(a[1..], c, b);
      assert p[1..] == a[1..] + [c] + b && p[0] == a[0];
      assert a == [a[0]] + a[1..];
    }
  }

  lemma {:induction false} SplitWord(a: Bytes)
    requires Word(a)
    ensures Split(a) == [a]
  {
    if a != [] {
      SplitWord(a[1..]);
      assert a == [a[0]] + a[1..];
    }
  }

  lemma Storage()
    ensures Word(Ascii("storage")) && |Ascii("storage")| == 7
  {
    var lit := "storage";
    assert forall i :: 0 <= i < 7 ==> Ascii(lit)[i] == lit[i] as int;
  }

  /** Below a home, a name leads where its components lead from there. */
  lemma ResolveBelow(f: Platform, u: Bytes, n: Bytes)
    requires SimpleUser(u) && Word(n)
    ensures Resolve(Home(f, u)) == [Ascii("storage"), u]
    ensures Resolve(Home(f, u) + [f.Sep()] + n) == Enter([Ascii("storage"), u], n)
  {
    var storage, sep := Ascii("storage"), f.Sep();
    Storage();
    SplitWord(u);
    SplitWord(n);
    SplitAt(storage, sep, u);
    SplitAt(u, sep, n);
    SplitAt(storage, sep, u + [sep] + n);
    assert Home(f, u) + [sep] + n == storage + [sep] + (u + [sep] + n);
    assert [storage] + [u] == [storage, u] && [storage] + ([u] + [n]) == [storage, u, n];
    WalkTwo(storage, u, n);
  }

  lemma WalkOne(at: seq<Bytes>, c: Bytes, cs: seq<Bytes>)
    ensures Walk(at, [c] + cs) == Walk(Enter(at, c), cs)
  {
    assert ([c] + cs)[1..] == cs;
  }

  lemma WalkTwo(a: Bytes, b: Bytes, c: Bytes)
    requires a != [] && a != [DOT] && a != [DOT, DOT] && b != [] && b != [DOT] && b != [DOT, DOT]
    ensures Walk([], [a, b]) == [a, b] && Walk([], [a, b, c]) == Enter([a, b], c)
  {
    var none: seq<Bytes> := [];
    assert none + [a] == [a] && [a] + [b] == [a, b];
    WalkOne(none, a, [b]);
    WalkOne([a], b, none);
    WalkOne(none, a, [b, c]);
    WalkOne([a], b, [c]);
    WalkOne([a, b], c, none);
    assert [a] + [b, c] == [a, b, c] && [b] + [c] == [b, c] && [b] + none == [b] && [c] + none == [c];
  }

  /** The path of a name that is accepted leads exactly one step below its user's directory: to the
      file of that name there. */
  lemma StaysInside(f: Platform, u: Bytes, n: Bytes)
    requires PlainUser(f, u) && ValidName(n) && PlainName(f, n)
    ensures Resolve(Home(f, u)) == [Ascii("storage"), u]
    ensures Resolve(PathKey(f, Key(u, n))) == [Ascii("storage"), u, n]
  {
    PathKeyIs(f, Key(u, n));
    ResolveBelow(f, u, n);
    assert |n| == 2 ==> !(n[0] == DOT && n[0 + 1] == DOT);
    assert [Ascii("storage"), u] + [n] == [Ascii("storage"), u, n];
  }

  /** A single dot leads to that directory itself, and two dots out of it; neither is accepted. */
  lemma DotsLead(f: Platform, u: Bytes)
    requires PlainUser(f, u)
    ensures Resolve(PathKey(f, Key(u, [46]))) == [Ascii("storage"), u] && !ValidName([46])
    ensures Resolve(PathKey(f, Key(u, [46, 46]))) == [Ascii("storage")] && !ValidName([46, 46])
  {
    PathKeyIs(f, Key(u, [46]));
    PathKeyIs(f, Key(u, [46, 46]));
    ResolveBelow(f, u, [46]);
    ResolveBelow(f, u, [46, 46]);
    assert [Ascii("storage"), u][..1] == [Ascii("storage")];
    assert [46, 46][0] == DOT && [46, 46][0 + 1] == DOT;
  }

  /** Two adjacent dots anywhere, or a separator, make a name invalid. */
  lemma DotsInvalid(n: Bytes, i: nat)
    requires i < |n| && (n[i] == 47 || n[i] == 92 || (i < |n| - 1 && n[i] == 46 && n[i + 1] == 46))
    ensures !ValidName(n)
  {
  }

  // ----- index keys: normalize_path("storage/" + user)

  function Slashed(p: Bytes): (r: Bytes)
    ensures |r| == |p|
    ensures forall i :: 0 <= i < |p| ==> r[i] == if p[i] == BACKSLASH then SLASH else p[i]
  {
    seq(|p|, i requires 0 <= i < |p| => if p[i] == BACKSLASH then SLASH else p[i])
  }

  function Normalized(p: Bytes): Bytes {
    var s := Slashed(p);
    if |s| > 1 && s[|s| - 1] == SLASH then s[..|s| - 1] else s
  }

  /** normalize_path: rewrites the copy in place, then drops one trailing slash. */
  method NormalizePath(path: Bytes) returns (normalized: Bytes)
    ensures normalized == Normalized(path)
  {
    var buf := new byte[|path|](i requires 0 <= i < |path| => path[i]);
    var i := 0;
    while i < buf.Length
      invariant 0 <= i <= buf.Length
      invariant buf[..i] == Slashed(path)[..i]
      invariant forall j :: i <= j < buf.Length ==> buf[j] == path[j]
    {
      if buf[i] == BACKSLASH {
        buf[i] := SLASH;
      }
      assert forall j :: i < j < buf.Length ==> buf[j] == path[j];
      assert Slashed(path)[..i + 1] == Slashed(path)[..i] + [Slashed(path)[i]];
      i := i + 1;
    }
    assert buf[..] == buf[..i] && Slashed(path)[..i] == Slashed(path);
    normalized := buf[..];
    if |normalized| > 1 && normalized[|normalized| - 1] == SLASH {
      normalized := normalized[..|normalized| - 1];
    }
  }

  function UserDir(u: Bytes): Bytes {
    Ascii("storage/") + u
  }

  /** The directory of a simple user is its own normal form, and no two users share one. */
  lemma UserDirNormal(u: Bytes)
    requires SimpleUser(u)
    ensures Normalized(UserDir(u)) == UserDir(u)
  {
    var p := UserDir(u);
    var prefix := "storage/";
    assert p[|p| - 1] == u[|u| - 1];
    forall i | 0 <= i < |p| ensures p[i] != BACKSLASH {
      if i < 8 {
        assert p[i] == prefix[i] as int;
      } else {
        assert p[i] == u[i - 8];
      }
    }
    assert Slashed(p) == p;
  }

  lemma UserDirInjective(u: Bytes, v: Bytes)
    requires SimpleUser(u) && SimpleUser(v) && Normalized(UserDir(u)) == Normalized(UserDir(v))
    ensures u == v
  {
    UserDirNormal(u);
    UserDirNormal(v);
    assert u == UserDir(u)[8..] && v == UserDir(v)[8..];
  }

  /** Normalizing is not idempotent: it is exactly when the path does not end in two
      separators after at least one other byte. */
  lemma NormalizedTwice(p: Bytes)
    ensures Normalized(Normalized(p)) == Normalized(p) <==>
            !(|p| >= 3 && Separator(p[|p| - 1]) && Separator(p[|p| - 2]))
  {
    var n := Normalized(p);
    assert forall i :: 0 <= i < |n| ==> n[i] != BACKSLASH;
    assert Slashed(n) == n;
  }

  lemma NormalizedTwiceDiffers()
    ensures var p := Ascii("a//"); Normalized(Normalized(p)) != Normalized(p)
  {
    var lit := "a//";
    var p := Ascii(lit);
    assert p[1] == lit[1] as int && p[2] == lit[2] as int;
    NormalizedTwice(p);
  }
}
