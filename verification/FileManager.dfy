/**
  FileManager as one thread executes it: lock manager, disk and index objects updated in
  place. Every operation is proved to perform one atomic operation of the store.
*/
module FileManager {
  import opened Basics
  import opened Paths
  import opened AtomicStore
  import opened Network
  import opened Metadata
  import opened LockManager
  import opened Protocol
  import FileLocks

  /** A file whose user and name are taken for what they are. */
  predicate Sane(f: Platform, k: Key) {
    PlainUser(f, k.user) && PlainName(f, k.name)
  }

  function IndexDir(k: Key): Bytes {
    Normalized(UserDir(k.user))
  }

  function FileAt(disk: map<Bytes, Bytes>, path: Bytes): Option<Bytes> {
    if path in disk then Some(disk[path]) else None
  }

  /** Disk and index hold, under their own keys, what the atomic store holds. */
  ghost predicate Mirrors(f: Platform, disk: map<Bytes, Bytes>, index: Index, store: Store) {
    && (forall k :: Sane(f, k) ==> FileAt(disk, FileName(f, k)) == store.Content(k))
    && (forall k: Key :: SimpleUser(k.user) ==> SizeAt(index, IndexDir(k), k.name) == store.Indexed(k))
  }

  /** Different files live under different paths and in different index slots. */
  lemma Separate(f: Platform, k: Key)
    requires Sane(f, k)
    ensures forall j :: Sane(f, j) && j != k ==> FileName(f, j) != FileName(f, k)
    ensures forall j: Key :: SimpleUser(j.user) && j != k ==> (IndexDir(j), j.name) != (IndexDir(k), k.name)
  {
    forall j | Sane(f, j) && j != k
      ensures FileName(f, j) != FileName(f, k)
    {
      PlainApart(f, j, k);
      PlainApart(f, k, j);
    }
    forall j: Key | SimpleUser(j.user) && j != k
      ensures (IndexDir(j), j.name) != (IndexDir(k), k.name)
    {
      if IndexDir(j) == IndexDir(k) {
        UserDirInjective(j.user, k.user);
      }
    }
  }

  /** The mirror after a change to one file. */
  lemma MirrorsUpdate(f: Platform, disk: map<Bytes, Bytes>, index: Index, store: Store,
                      disk': map<Bytes, Bytes>, index': Index, store': Store, k: Key)
    requires Sane(f, k) && Mirrors(f, disk, index, store)
    requires forall p :: p != FileName(f, k) ==> FileAt(disk', p) == FileAt(disk, p)
    requires forall d, n :: (d, n) != (IndexDir(k), k.name) ==> SizeAt(index', d, n) == SizeAt(index, d, n)
    requires forall j :: j != k ==> store'.Content(j) == store.Content(j) && store'.Indexed(j) == store.Indexed(j)
    requires FileAt(disk', FileName(f, k)) == store'.Content(k)
    requires SizeAt(index', IndexDir(k), k.name) == store'.Indexed(k)
    ensures Mirrors(f, disk', index', store')
  {
    Separate(f, k);
  }

  /** No count is zero or overflows. */
  ghost predicate CountsOk(counts: map<Bytes, nat>) {
    forall p :: p in counts ==> 0 < counts[p] < FileLocks.COUNT_LIMIT
  }

  ghost predicate RoomFor(counts: map<Bytes, nat>, path: Bytes) {
    path in counts ==> counts[path] + 1 < FileLocks.COUNT_LIMIT
  }

  lemma AcquiredOk(counts: map<Bytes, nat>, path: Bytes)
    requires CountsOk(counts) && RoomFor(counts, path)
    ensures CountsOk(Acquired(counts, path))
    ensures forall p :: p != path && RoomFor(counts, p) ==> RoomFor(Acquired(counts, path), p)
  {
  }

  /** Entries that are the index's for one user are the store's listing. */
  lemma ListingIs(f: Platform, disk: map<Bytes, Bytes>, index: Index, store: Store, user: Bytes,
                  entries: seq<(Bytes, nat)>, files: map<Bytes, nat>)
    requires Mirrors(f, disk, index, store) && SimpleUser(user)
    requires forall n, z :: (n, z) in entries <==> SizeAt(index, Normalized(UserDir(user)), n) == Some(z)
    requires forall n, z :: n in files && files[n] == z <==> (n, z) in entries
    ensures files == store.Listing(user)
  {
    forall n ensures (if n in files then Some(files[n]) else None) == store.Indexed(Key(user, n)) {
      var k := Key(user, n);
      assert SizeAt(index, IndexDir(k), k.name) == store.Indexed(k);
      assert n in files ==> (n, files[n]) in entries;
      assert store.Indexed(k).Some? ==> (n, store.Indexed(k).value) in entries;
    }
  }

  class FileManager {
    const platform: Platform
    var disk: map<Bytes, Bytes>
    const index: MetadataManager
    const locks: FileLockManager
    ghost var store: Store

    /** Disk and index agree with the atomic store. */
    ghost predicate Mirrored()
      reads this, index
    {
      index.Valid() && store.Valid() && Mirrors(platform, disk, index.index, store)
    }

    ghost predicate LocksOk()
      reads this, locks, locks.locks.Values
    {
      locks.Valid() && CountsOk(locks.Counts())
    }

    ghost predicate Valid()
      reads this, index, locks, locks.locks.Values
    {
      Mirrored() && LocksOk()
    }

    constructor (platform: Platform, disk: map<Bytes, Bytes>, index: MetadataManager,
                 locks: FileLockManager, ghost store: Store)
      requires index.Valid() && locks.Valid() && store.Valid()
      requires Mirrors(platform, disk, index.index, store) && locks.locks == map[]
      ensures Valid() && this.store == store && this.index == index && this.locks == locks
    {
      this.platform, this.disk, this.index, this.locks, this.store := platform, disk, index, locks, store;
    }

    /** Fewer than 2^32 references on the path are outstanding. */
    ghost predicate Room(k: Key)
      reads this, locks, locks.locks.Values
    {
      RoomFor(locks.Counts(), PathKey(platform, k))
    }

    /** Lock entries come into the map only by being created. */
    twostate predicate NewEntries()
      reads this, locks
    {
      fresh(locks.locks.Values - old(locks.locks.Values))
    }

    /** How the lock map moves: leaking exits keep their reference. */
    twostate predicate Counted(path: Bytes, leaks: bool)
      reads this, locks, locks.locks.Values
    {
      locks.Counts() ==
        (if leaks then Acquired(old(locks.Counts()), path) else old(locks.Counts()))
    }

    method TakeRef(k: Key) returns (path: Bytes)
      requires LocksOk() && Room(k)
      modifies locks, locks.locks.Values
      ensures LocksOk() && path == PathKey(platform, k)
      ensures locks.Counts() == Acquired(old(locks.Counts()), path)
      ensures NewEntries()
    {
      path := PathKey(platform, k);
      AcquiredOk(locks.Counts(), path);
      var lockEntry := locks.AcquireLockRef(path);
    }

    method DropRef(path: Bytes, ghost before: map<Bytes, nat>)
      requires LocksOk() && locks.Counts() == Acquired(before, path)
      requires CountsOk(before)
      modifies locks, locks.locks.Values
      ensures LocksOk() && locks.Counts() == before
      ensures locks.locks.Values <= old(locks.locks.Values)
    {
      ReleaseUndoesAcquire(before, path);
      locks.ReleaseLockRef(path);
    }

    /** Reads and drops `size` bytes. */
    static method DiscardData(sock: Socket, size: nat)
      modifies sock`incoming
      ensures Consumed(sock.incoming, old(sock.incoming), size)
      ensures sock.reliable ==>
                sock.incoming == (if size <= |old(sock.incoming)| then old(sock.incoming)[size..] else [])
    {
      ghost var stream := sock.incoming;
      ghost var consumed := 0;
      var bytesRemaining := size;
      var buffer := new byte[TRANSFER_BUFFER_SIZE](_ => 0);
      while bytesRemaining > 0
        invariant 0 <= bytesRemaining <= size
        invariant consumed == size - bytesRemaining <= |stream|
        invariant sock.incoming == stream[consumed..]
      {
        var chunkSize := Min(buffer.Length, bytesRemaining);
        var ok := RecvAll(sock, buffer, chunkSize);
        if !ok {
          break;
        }
        assert stream[consumed..][chunkSize..] == stream[consumed + chunkSize..];
        bytesRemaining := bytesRemaining - chunkSize;
        consumed := consumed + chunkSize;
      }
    }

    /** The chunk loop of save_file: the file ends up with the payload, or is removed. */
    method ReceiveInto(file: Bytes, sock: Socket, fileSize: nat) returns (ok: bool)
      modifies this`disk, sock`incoming
      ensures match Take(old(sock.incoming), fileSize)
              case Some((data, rest)) =>
                && (ok ==> disk == old(disk)[file := data] && sock.incoming == rest)
                && (sock.reliable ==> ok)
              case None => !ok
      ensures !ok ==> disk == old(disk) - {file} && (sock.reliable ==> sock.incoming == [])
      ensures Consumed(sock.incoming, old(sock.incoming), fileSize)
    {
      disk := disk[file := []];
      ghost var stream := sock.incoming;
      ghost var received := 0;
      var bytesRemaining := fileSize;
      var buffer := new byte[TRANSFER_BUFFER_SIZE](_ => 0);
      while bytesRemaining > 0
        invariant 0 <= bytesRemaining <= fileSize
        invariant received == fileSize - bytesRemaining <= |stream|
        invariant sock.incoming == stream[received..]
        invariant disk == old(disk)[file := stream[..received]]
      {
        var chunkSize := Min(buffer.Length, bytesRemaining);
        ok := RecvAll(sock, buffer, chunkSize);
        if !ok {
          disk := disk - {file};
          return false;
        }
        disk := disk[file := disk[file] + buffer[..chunkSize]];
        assert stream[..received + chunkSize] == stream[..received] + stream[received..][..chunkSize];
        assert stream[received..][chunkSize..] == stream[received + chunkSize..];
        bytesRemaining := bytesRemaining - chunkSize;
        received := received + chunkSize;
      }
      return true;
    }

    /** The critical section of save_file, once the file is open and truncated. */
    method WriteFile(key: Key, path: Bytes, sock: Socket, fileSize: nat)
      returns (success: bool, ghost out: Outcome)
      requires Mirrored() && Sane(platform, key) && path == PathKey(platform, key)
      modifies this, index, sock`incoming
      ensures Mirrored()
      ensures Allowed(old(store), Save(key, fileSize), out)
      ensures store == Effect(old(store), Save(key, fileSize), out)
      ensures success ==> out.Saved? && Take(old(sock.incoming), fileSize) == Some((out.data, sock.incoming))
      ensures !success ==> out.SaveFailed?
      ensures sock.reliable ==> (success <==> fileSize <= |old(sock.incoming)|)
      ensures sock.reliable ==>
                sock.incoming == (if fileSize <= |old(sock.incoming)| then old(sock.incoming)[fileSize..] else [])
      ensures Consumed(sock.incoming, old(sock.incoming), fileSize)
    {
      success := ReceiveInto(CString(path), sock, fileSize);
      if success {
        index.AddFile(UserDir(key.user), key.name, fileSize);
        out := Saved(old(sock.incoming)[..fileSize]);
      } else {
        out := SaveFailed;
      }
      store := Effect(store, Save(key, fileSize), out);
      MirrorsUpdate(platform, old(disk), old(index.index), old(store), disk, index.index, store, key);
    }

    /** The file cannot be created: the payload is dropped, the reference given back. */
    method RefuseSave(path: Bytes, ghost before: map<Bytes, nat>, sock: Socket, fileSize: nat)
      requires LocksOk() && locks.Counts() == Acquired(before, path) && CountsOk(before)
      modifies locks, locks.locks.Values, sock`incoming
      ensures LocksOk() && locks.Counts() == before && locks.locks.Values <= old(locks.locks.Values)
      ensures Consumed(sock.incoming, old(sock.incoming), fileSize)
      ensures sock.reliable ==>
                sock.incoming == (if fileSize <= |old(sock.incoming)| then old(sock.incoming)[fileSize..] else [])
    {
      DiscardData(sock, fileSize);
      DropRef(path, before);
    }

    /** The critical section, and the release that a broken transfer skips. */
    method WriteAndDrop(key: Key, path: Bytes, ghost before: map<Bytes, nat>, sock: Socket, fileSize: nat)
      returns (success: bool, ghost out: Outcome)
      requires Mirrored() && LocksOk() && Sane(platform, key) && path == PathKey(platform, key)
      requires locks.Counts() == Acquired(before, path) && CountsOk(before)
      modifies this, index, locks, locks.locks.Values, sock`incoming
      ensures Valid() && locks.locks.Values <= old(locks.locks.Values)
      ensures success == out.Success() && (out.Saved? || out.SaveFailed?)
      ensures Allowed(old(store), Save(key, fileSize), out)
      ensures store == Effect(old(store), Save(key, fileSize), out)
      ensures locks.Counts() == if success then before else Acquired(before, path)
      ensures success ==> Take(old(sock.incoming), fileSize) == Some((out.data, sock.incoming))
      ensures sock.reliable ==> (success <==> fileSize <= |old(sock.incoming)|)
      ensures sock.reliable ==>
                sock.incoming == (if fileSize <= |old(sock.incoming)| then old(sock.incoming)[fileSize..] else [])
      ensures Consumed(sock.incoming, old(sock.incoming), fileSize)
    {
      success, out := WriteFile(key, path, sock, fileSize);
      assert LocksOk() && locks.Counts() == Acquired(before, path);
      if success {
        DropRef(path, before);
      }
    }

    /** Reference, critical section, release. `canOpen` says whether the output file can be created. */
    method SaveLocked(key: Key, sock: Socket, fileSize: nat, canOpen: bool)
      returns (success: bool, ghost out: Outcome)
      requires Valid() && Sane(platform, key) && Room(key)
      modifies this, index, locks, locks.locks.Values, sock`incoming
      ensures NewEntries() && Valid()
      ensures success == out.Success()
      ensures Allowed(old(store), Save(key, fileSize), out)
      ensures store == Effect(old(store), Save(key, fileSize), out)
      ensures Counted(PathKey(platform, key), out.Leaks())
      ensures if canOpen then out.Saved? || out.SaveFailed? else out.Refused?
      ensures success ==> Take(old(sock.incoming), fileSize) == Some((out.data, sock.incoming))
      ensures sock.reliable ==> (success <==> canOpen && fileSize <= |old(sock.incoming)|)
      ensures sock.reliable ==>
                sock.incoming == (if fileSize <= |old(sock.incoming)| then old(sock.incoming)[fileSize..] else [])
      ensures Consumed(sock.incoming, old(sock.incoming), fileSize)
    {
      var path := TakeRef(key);
      if !canOpen {
        RefuseSave(path, old(locks.Counts()), sock, fileSize);
        return false, Refused;
      }
      success, out := WriteAndDrop(key, path, old(locks.Counts()), sock, fileSize);
    }

    /** save_file. `canOpen` says whether the output file can be created. */
    method SaveFile(username: Bytes, filename: Bytes, sock: Socket, fileSize: nat, canOpen: bool)
      returns (success: bool, ghost out: Outcome)
      requires Valid() && PlainUser(platform, username) && PlainIfValid(platform, filename)
      requires Room(Key(username, filename))
      modifies this, index, locks, locks.locks.Values, sock`incoming
      ensures NewEntries()
      ensures Valid()
      ensures success == out.Success()
      ensures !ValidName(filename) ==>
        out == Refused && store == old(store) && locks.Counts() == old(locks.Counts())
      ensures ValidName(filename) ==>
        var op := Save(Key(username, filename), fileSize);
        && Allowed(old(store), op, out) && store == Effect(old(store), op, out)
        && Counted(PathKey(platform, op.key), out.Leaks())
        && (if canOpen then out.Saved? || out.SaveFailed? else out.Refused?)
      ensures success ==> out.Saved? && Take(old(sock.incoming), fileSize) == Some((out.data, sock.incoming))
      ensures sock.reliable ==>
        (success <==> ValidName(filename) && canOpen && fileSize <= |old(sock.incoming)|)
      ensures sock.reliable ==>
                sock.incoming == (if fileSize <= |old(sock.incoming)| then old(sock.incoming)[fileSize..] else [])
      ensures Consumed(sock.incoming, old(sock.incoming), fileSize)
      ensures (exists i :: 0 <= i < |filename| - 1 && filename[i] == 46 && filename[i + 1] == 46) ==>
        !success && store == old(store) && locks.Counts() == old(locks.Counts())
      ensures success ==> store.Content(Key(username, filename)) == Some(old(sock.incoming)[..fileSize])
    {
      var valid := IsValidFilename(filename);
      if !valid {
        DiscardData(sock, fileSize);
        return false, Refused;
      }
      success, out := SaveLocked(Key(username, filename), sock, fileSize, canOpen);
    }

    /** The critical section of stream_file_to_socket: chunks until a short read. */
    static method SendContent(content: Bytes, sock: Socket) returns (success: bool, ghost sent: Bytes)
      modifies sock`outgoing
      ensures sent <= content && sock.outgoing == old(sock.outgoing) + sent
      ensures success ==> sent == content
      ensures sock.reliable ==> success
    {
      var totalSent := 0;
      var good := true;
      assert content[..0] == [];
      while good
        invariant 0 <= totalSent <= |content|
        invariant !good ==> totalSent == |content|
        invariant sock.outgoing == old(sock.outgoing) + content[..totalSent]
        decreases good, |content| - totalSent
      {
        var bytesRead := Min(TRANSFER_BUFFER_SIZE, |content| - totalSent);
        var chunk := content[totalSent..totalSent + bytesRead];
        good := bytesRead == TRANSFER_BUFFER_SIZE;
        if bytesRead > 0 {
          ghost var before := sock.outgoing;
          var ok := SendAll(sock, chunk, bytesRead);
          if !ok {
            ghost var n :| 0 <= n <= bytesRead && sock.outgoing == before + chunk[..n];
            assert content[..totalSent] + chunk[..n] == content[..totalSent + n];
            return false, content[..totalSent + n];
          }
          assert content[..totalSent] + chunk[..bytesRead] == content[..totalSent + bytesRead];
          totalSent := totalSent + bytesRead;
        }
      }
      assert content[..totalSent] == content;
      return true, content;
    }

    /** Reference, critical section, and the release that a complete transfer skips. */
    method StreamLocked(key: Key, sock: Socket) returns (success: bool, ghost out: Outcome)
      requires Valid() && Sane(platform, key) && Room(key)
      modifies locks, locks.locks.Values, sock`outgoing
      ensures NewEntries() && Valid()
      ensures success == out.Success()
      ensures Allowed(store, Stream(key), out) && Counted(PathKey(platform, key), out.Leaks())
      ensures sock.outgoing == old(sock.outgoing)
        + (if out.Sent? then out.data else if out.Cut? then out.prefix else [])
      ensures sock.reliable ==> (success <==> key in store.files)
    {
      var path := TakeRef(key);
      var file := CString(path);
      assert FileAt(disk, file) == store.Content(key);
      if file !in disk {
        DropRef(path, old(locks.Counts()));
        return false, NotFound;
      }
      ghost var sent;
      success, sent := SendContent(disk[file], sock);
      if success {
        out := Sent(sent);
      } else {
        out := Cut(sent);
        DropRef(path, old(locks.Counts()));
      }
    }

    method StreamFileToSocket(username: Bytes, filename: Bytes, sock: Socket)
      returns (success: bool, ghost out: Outcome)
      requires Valid() && PlainUser(platform, username) && PlainIfValid(platform, filename)
      requires Room(Key(username, filename))
      modifies locks, locks.locks.Values, sock`outgoing
      ensures NewEntries()
      ensures Valid() && store == old(store)
      ensures success == out.Success()
      ensures !ValidName(filename) ==>
        out == NotFound && locks.Counts() == old(locks.Counts())
      ensures ValidName(filename) ==>
        var op := Stream(Key(username, filename));
        Allowed(store, op, out) && Counted(PathKey(platform, op.key), out.Leaks())
      ensures sock.outgoing == old(sock.outgoing)
        + (if out.Sent? then out.data else if out.Cut? then out.prefix else [])
      ensures sock.reliable ==>
        (success <==> ValidName(filename) && Key(username, filename) in store.files)
      ensures (exists i :: 0 <= i < |filename| - 1 && filename[i] == 46 && filename[i + 1] == 46) ==>
        !success && store == old(store) && locks.Counts() == old(locks.Counts())
    {
      var valid := IsValidFilename(filename);
      if !valid {
        return false, NotFound;
      }
      success, out := StreamLocked(Key(username, filename), sock);
    }

    /** The critical section of delete_file. */
    method RemoveFile(key: Key, path: Bytes) returns (success: bool, ghost out: Outcome)
      requires Mirrored() && Sane(platform, key) && path == PathKey(platform, key)
      modifies this, index
      ensures Mirrored()
      ensures Allowed(old(store), Delete(key), out)
      ensures store == Effect(old(store), Delete(key), out)
      ensures success == out.Success() && !out.Leaks()
      ensures success <==> CString(path) in old(disk)
      ensures disk == old(disk) - {CString(path)}
    {
      var file := CString(path);
      assert FileAt(disk, file) == store.Content(key);
      success := file in disk;
      disk := disk - {file};
      out := Missing;
      if success {
        index.RemoveFile(UserDir(key.user), key.name);
        out := Deleted;
      }
      store := Effect(store, Delete(key), out);
      MirrorsUpdate(platform, old(disk), old(index.index), old(store), disk, index.index, store, key);
    }

    /** Reference, critical section, release. `throws` says whether fs::remove raises an error. */
    method DeleteLocked(key: Key, throws: bool) returns (success: bool, ghost out: Outcome)
      requires Valid() && Sane(platform, key) && Room(key)
      modifies this, index, locks, locks.locks.Values
      ensures NewEntries() && Valid()
      ensures success == out.Success() && (out.Threw? <==> throws)
      ensures Allowed(old(store), Delete(key), out) && store == Effect(old(store), Delete(key), out)
      ensures Counted(PathKey(platform, key), out.Leaks())
    {
      var path := TakeRef(key);
      if throws {
        return false, Threw;
      }
      success, out := RemoveFile(key, path);
      DropRef(path, old(locks.Counts()));
    }

    /** delete_file. */
    method DeleteFile(username: Bytes, filename: Bytes, throws: bool)
      returns (success: bool, ghost out: Outcome)
      requires Valid() && PlainUser(platform, username) && PlainIfValid(platform, filename)
      requires Room(Key(username, filename))
      modifies this, index, locks, locks.locks.Values
      ensures NewEntries()
      ensures Valid()
      ensures success == out.Success()
      ensures !ValidName(filename) ==>
        out == Missing && store == old(store) && locks.Counts() == old(locks.Counts())
      ensures ValidName(filename) ==>
        var op := Delete(Key(username, filename));
        && Allowed(old(store), op, out) && store == Effect(old(store), op, out)
        && Counted(PathKey(platform, op.key), out.Leaks())
        && (out.Threw? <==> throws)
      ensures (exists i :: 0 <= i < |filename| - 1 && filename[i] == 46 && filename[i + 1] == 46) ==>
        !success && store == old(store) && locks.Counts() == old(locks.Counts())
      ensures success <==> ValidName(filename) && !throws && old(store).Content(Key(username, filename)).Some?
      ensures if success then store.Content(Key(username, filename)) == None else store == old(store)
    {
      var valid := IsValidFilename(filename);
      if !valid {
        return false, Missing;
      }
      success, out := DeleteLocked(Key(username, filename), throws);
    }

    /** get_file_size: the indexed size, or the largest uint64_t. */
    method GetFileSize(username: Bytes, filename: Bytes) returns (size: nat)
      requires Mirrored() && SimpleUser(username)
      ensures var r := store.Indexed(Key(username, filename));
              size == if r.Some? then r.value else ABSENT
    {
      ghost var k := Key(username, filename);
      assert SizeAt(index.index, IndexDir(k), k.name) == store.Indexed(k);
      var found := index.FileExists(UserDir(username), filename);
      if !found {
        return ABSENT;
      }
      size := index.GetFileSize(UserDir(username), filename);
    }

    /** list_files, before the entries are turned into text. */
    method ListFiles(username: Bytes) returns (files: map<Bytes, nat>)
      requires Mirrored() && SimpleUser(username)
      ensures files == store.Listing(username)
    {
      var entries := index.ListDirectory(UserDir(username));
      files := map[];
      var i := 0;
      while i < |entries|
        invariant 0 <= i <= |entries|
        invariant forall n, z :: n in files && files[n] == z <==> (n, z) in entries[..i]
      {
        assert entries[..i + 1] == entries[..i] + [entries[i]];
        assert forall n :: n in files ==> (n, files[n]) in entries[..i];
        assert entries[i].0 !in files;
        files := files[entries[i].0 := entries[i].1];
        i := i + 1;
      }
      assert entries[..i] == entries;
      ListingIs(platform, disk, index.index, store, username, entries, files);
    }

    /** The critical section of rename_file. */
    method MoveFile(src: Key, dst: Key, oldPath: Bytes, newPath: Bytes)
      returns (success: bool, ghost out: Outcome)
      requires Mirrored() && Sane(platform, src) && Sane(platform, dst) && src != dst && src.user == dst.user
      requires oldPath == PathKey(platform, src) && newPath == PathKey(platform, dst)
      modifies this, index
      ensures Mirrored()
      ensures Allowed(old(store), Rename(src, dst), out)
      ensures store == Effect(old(store), Rename(src, dst), out)
      ensures success == out.Success() && !out.Leaks()
      ensures success <==> CString(oldPath) in old(disk) && CString(newPath) !in old(disk)
      ensures disk == if success then (old(disk) - {CString(oldPath)})[CString(newPath) := old(disk)[CString(oldPath)]]
                      else old(disk)
    {
      var oldFile, newFile := CString(oldPath), CString(newPath);
      assert FileAt(disk, oldFile) == store.Content(src) && FileAt(disk, newFile) == store.Content(dst);
      if oldFile !in disk || newFile in disk {
        return false, Clash;
      }
      Separate(platform, src);
      disk := (disk - {oldFile})[newFile := disk[oldFile]];
      ghost var before := index.index;
      assert SizeAt(before, IndexDir(src), src.name) == store.Indexed(src);
      var size := index.GetFileSize(UserDir(src.user), src.name);
      index.RemoveFile(UserDir(src.user), src.name);
      index.AddFile(UserDir(src.user), dst.name, size);
      store := Effect(store, Rename(src, dst), Renamed);
      MirrorsRename(platform, old(disk), before, old(store), disk, index.index, store, src, dst);
      return true, Renamed;
    }

    method TakeTwo(src: Key, dst: Key) returns (oldPath: Bytes, newPath: Bytes)
      requires LocksOk() && Room(src) && Room(dst) && PathKey(platform, src) != PathKey(platform, dst)
      modifies locks, locks.locks.Values
      ensures LocksOk() && oldPath == PathKey(platform, src) && newPath == PathKey(platform, dst)
      ensures locks.Counts() == Acquired(Acquired(old(locks.Counts()), oldPath), newPath)
      ensures NewEntries()
    {
      AcquiredOk(locks.Counts(), PathKey(platform, src));
      oldPath := TakeRef(src);
      newPath := TakeRef(dst);
    }

    method DropTwo(oldPath: Bytes, newPath: Bytes, ghost before: map<Bytes, nat>)
      requires LocksOk() && CountsOk(before) && oldPath != newPath
      requires locks.Counts() == Acquired(Acquired(before, oldPath), newPath)
      modifies locks, locks.locks.Values
      ensures LocksOk() && locks.Counts() == before
      ensures locks.locks.Values <= old(locks.locks.Values)
    {
      ReleasesUndo(before, oldPath, newPath);
      locks.ReleaseLockRef(oldPath);
      locks.ReleaseLockRef(newPath);
    }

    /** Both references, the critical section, both releases. */
    method RenameLocked(src: Key, dst: Key, throws: bool) returns (success: bool, ghost out: Outcome)
      requires Valid() && Sane(platform, src) && Sane(platform, dst) && src != dst && src.user == dst.user
      requires Room(src) && Room(dst)
      modifies this, index, locks, locks.locks.Values
      ensures NewEntries()
      ensures Valid()
      ensures success == out.Success() && (out.Threw? <==> throws)
      ensures Allowed(old(store), Rename(src, dst), out)
      ensures store == Effect(old(store), Rename(src, dst), out)
      ensures locks.Counts() ==
        (if out.Leaks()
         then Acquired(Acquired(old(locks.Counts()), PathKey(platform, src)), PathKey(platform, dst))
         else old(locks.Counts()))
    {
      PlainApart(platform, src, dst);
      var oldPath, newPath := TakeTwo(src, dst);
      if throws {
        return false, Threw;
      }
      success, out := MoveFile(src, dst, oldPath, newPath);
      DropTwo(oldPath, newPath, old(locks.Counts()));
    }

    /** Renaming a file to itself succeeds whether or not it exists. */
    method RenameValid(src: Key, dst: Key, throws: bool) returns (success: bool, ghost out: Outcome)
      requires Valid() && Sane(platform, src) && Sane(platform, dst) && src.user == dst.user
      requires Room(src) && Room(dst)
      modifies this, index, locks, locks.locks.Values
      ensures NewEntries()
      ensures Valid()
      ensures success == (out.Success() || src == dst)
      ensures src == dst ==> out == Clash && store == old(store) && locks.Counts() == old(locks.Counts())
      ensures src != dst ==>
        && Allowed(old(store), Rename(src, dst), out)
        && store == Effect(old(store), Rename(src, dst), out) && (out.Threw? <==> throws)
        && locks.Counts() ==
           (if out.Leaks()
            then Acquired(Acquired(old(locks.Counts()), PathKey(platform, src)), PathKey(platform, dst))
            else old(locks.Counts()))
      ensures success && src != dst ==>
        && old(store).Content(dst) == None && old(store).Content(src).Some?
        && store.Content(src) == None && store.Content(dst) == old(store).Content(src)
      ensures !success || src == dst ==> store == old(store)
    {
      PlainApart(platform, src, dst);
      var oldKey, newKey := PathKey(platform, src), PathKey(platform, dst);
      if oldKey == newKey {
        return true, Clash;
      }
      success, out := RenameLocked(src, dst, throws);
    }

    static method BothValid(oldName: Bytes, newName: Bytes) returns (valid: bool)
      ensures valid == (ValidName(oldName) && ValidName(newName))
      ensures (exists i :: 0 <= i < |oldName| - 1 && oldName[i] == 46 && oldName[i + 1] == 46) ==> !valid
      ensures (exists i :: 0 <= i < |newName| - 1 && newName[i] == 46 && newName[i + 1] == 46) ==> !valid
    {
      valid := IsValidFilename(oldName);
      if valid {
        valid := IsValidFilename(newName);
      }
    }

    /** rename_file. `throws` says whether a filesystem call raises an error. */
    method RenameFile(username: Bytes, oldName: Bytes, newName: Bytes, throws: bool)
      returns (success: bool, ghost out: Outcome)
      requires Valid() && PlainUser(platform, username)
      requires PlainIfValid(platform, oldName) && PlainIfValid(platform, newName)
      requires Room(Key(username, oldName)) && Room(Key(username, newName))
      modifies this, index, locks, locks.locks.Values
      ensures NewEntries()
      ensures Valid()
      ensures success == (out.Success() || (ValidName(oldName) && oldName == newName))
      ensures !ValidName(oldName) || !ValidName(newName) || oldName == newName ==>
        out == Clash && store == old(store) && locks.Counts() == old(locks.Counts())
      ensures ValidName(oldName) && ValidName(newName) && oldName != newName ==>
        var src, dst := Key(username, oldName), Key(username, newName);
        && Allowed(old(store), Rename(src, dst), out)
        && store == Effect(old(store), Rename(src, dst), out) && (out.Threw? <==> throws)
        && locks.Counts() ==
           (if out.Leaks()
            then Acquired(Acquired(old(locks.Counts()), PathKey(platform, src)), PathKey(platform, dst))
            else old(locks.Counts()))
      ensures (exists i :: 0 <= i < |oldName| - 1 && oldName[i] == 46 && oldName[i + 1] == 46) ==>
        !success && store == old(store) && locks.Counts() == old(locks.Counts())
      ensures (exists i :: 0 <= i < |newName| - 1 && newName[i] == 46 && newName[i + 1] == 46) ==>
        !success && store == old(store) && locks.Counts() == old(locks.Counts())
      ensures success && oldName != newName ==>
        var src, dst := Key(username, oldName), Key(username, newName);
        && old(store).Content(dst) == None && old(store).Content(src).Some?
        && store.Content(src) == None && store.Content(dst) == old(store).Content(src)
      ensures !success || oldName == newName ==> store == old(store)
    {
      var valid := BothValid(oldName, newName);
      if !valid {
        return false, Clash;
      }
      success, out := RenameValid(Key(username, oldName), Key(username, newName), throws);
    }
  }

  /** The two releases of a rename undo its two acquires, in the order the code uses. */
  lemma ReleasesUndo<K>(counts: map<K, nat>, a: K, b: K)
    requires a != b
    requires a in counts ==> 0 < counts[a] < FileLocks.COUNT_LIMIT
    requires b in counts ==> 0 < counts[b] < FileLocks.COUNT_LIMIT
    ensures Released(Released(Acquired(Acquired(counts, a), b), a), b) == counts
  {
  }

  lemma MirrorsRename(f: Platform, disk: map<Bytes, Bytes>, index: Index, store: Store,
                      disk': map<Bytes, Bytes>, index': Index, store': Store, src: Key, dst: Key)
    requires Sane(f, src) && Sane(f, dst) && src != dst && Mirrors(f, disk, index, store)
    requires src in store.files && dst !in store.files
    requires store.Valid() && store' == Effect(store, Rename(src, dst), Renamed)
    requires forall p :: p != FileName(f, src) && p != FileName(f, dst) ==> FileAt(disk', p) == FileAt(disk, p)
    requires FileAt(disk', FileName(f, src)) == None
    requires FileAt(disk', FileName(f, dst)) == FileAt(disk, FileName(f, src))
    requires forall d, n ::
      (d, n) != (IndexDir(src), src.name) && (d, n) != (IndexDir(dst), dst.name) ==>
        SizeAt(index', d, n) == SizeAt(index, d, n)
    requires SizeAt(index', IndexDir(src), src.name) == None
    requires SizeAt(index', IndexDir(dst), dst.name) == SizeAt(index, IndexDir(src), src.name)
    ensures Mirrors(f, disk', index', store')
  {
    Separate(f, src);
    Separate(f, dst);
    forall k | Sane(f, k) ensures FileAt(disk', FileName(f, k)) == store'.Content(k) {
      ContentRenamed(store, src, dst, k);
    }
    forall k: Key | SimpleUser(k.user) ensures SizeAt(index', IndexDir(k), k.name) == store'.Indexed(k) {
      ContentRenamed(store, src, dst, k);
    }
  }

  lemma ContentRenamed(store: Store, src: Key, dst: Key, k: Key)
    requires store.Valid() && src in store.files && dst !in store.files && src != dst
    ensures var s := Effect(store, Rename(src, dst), Renamed);
            && s.Content(k) == (if k == src then None else store.Content(if k == dst then src else k))
            && s.Indexed(k) == (if k == src then None else store.Indexed(if k == dst then src else k))
  {
  }
}
