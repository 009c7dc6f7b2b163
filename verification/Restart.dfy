/** The filesystem is the source of truth: restarting rebuilds the running index. */
module Restart {
  import opened Basics
  import opened Paths
  import opened Metadata
  import opened AtomicStore
  import opened StoreMachine
  import opened StorePreserved
  import opened StoreTheorems

  ghost predicate InFiles(files: seq<FileEntry>, name: Bytes) {
    exists j :: 0 <= j < |files| && files[j].regular && files[j].name == name
  }

  ghost predicate InDir(d: DirEntry, k: Key) {
    d.isDirectory && d.name == k.user && InFiles(d.files, k.name)
  }

  ghost predicate Shown(listing: seq<DirEntry>, k: Key) {
    exists i :: 0 <= i < |listing| && InDir(listing[i], k)
  }

  ghost predicate FilesSay(files: seq<FileEntry>, name: Bytes, z: nat) {
    forall j :: 0 <= j < |files| && files[j].regular && files[j].name == name ==> files[j].size == z
  }

  /** The entry is a simple user's directory, and `k` has size `z` wherever it shows. */
  ghost predicate DirSays(d: DirEntry, k: Key, z: nat) {
    d.isDirectory ==> SimpleUser(d.name) && (d.name == k.user ==> FilesSay(d.files, k.name, z))
  }

  /** What a directory iterator over the storage directory shows for `disk`. */
  ghost predicate Lists(listing: seq<DirEntry>, disk: map<Key, Bytes>) {
    && (forall k :: k in disk <==> Shown(listing, k))
    && (forall i, k :: 0 <= i < |listing| ==>
          DirSays(listing[i], k, if k in disk then |disk[k]| else 0))
  }

  lemma {:induction false} SizeInDirFound(files: seq<FileEntry>, name: Bytes, z: nat)
    requires FilesSay(files, name, z)
    ensures SizeInDir(files, name) == if InFiles(files, name) then Some(z) else None
  {
    if files != [] {
      var n := |files| - 1;
      SizeInDirFound(files[..n], name, z);
      assert forall j :: 0 <= j < n ==> files[..n][j] == files[j];
    }
  }

  lemma ShownSnoc(listing: seq<DirEntry>, k: Key)
    requires listing != []
    ensures Shown(listing, k) <==>
            Shown(listing[..|listing| - 1], k) || InDir(listing[|listing| - 1], k)
  {
    var n := |listing| - 1;
    if i :| 0 <= i < |listing| && InDir(listing[i], k) && i < n {
      assert InDir(listing[..n][i], k);
    }
  }

  /** Scanning a listing finds exactly the files it shows. */
  lemma {:induction false} SizeOnDiskFound(listing: seq<DirEntry>, k: Key, z: nat)
    requires SimpleUser(k.user)
    requires forall i :: 0 <= i < |listing| ==> DirSays(listing[i], k, z)
    ensures SizeOnDisk(listing, Normalized(UserDir(k.user)), k.name) ==
            if Shown(listing, k) then Some(z) else None
  {
    if listing != [] {
      var n := |listing| - 1;
      var d := listing[n];
      SizeOnDiskFound(listing[..n], k, z);
      ShownSnoc(listing, k);
      if d.isDirectory && Normalized(UserDir(d.name)) == Normalized(UserDir(k.user)) {
        UserDirInjective(d.name, k.user);
      }
      if d.isDirectory && d.name == k.user {
        SizeInDirFound(d.files, k.name, z);
      }
    }
  }

  lemma RebuildReadsDisk(listing: seq<DirEntry>, disk: map<Key, Bytes>, k: Key)
    requires Lists(listing, disk) && SimpleUser(k.user)
    ensures SizeOnDisk(listing, Normalized(UserDir(k.user)), k.name) ==
            (if k in disk then Some(|disk[k]|) else None)
  {
    SizeOnDiskFound(listing, k, if k in disk then |disk[k]| else 0);
  }

  /** With no operation in progress, rebuild_from_disk yields the running index without its
      stale entries: same names, same sizes. */
  lemma RestartEquivalence(disk: map<Key, Bytes>, choices: seq<Choice>, s: State,
                           listing: seq<DirEntry>, k: Key)
    requires Reaches(disk, choices, s) && AtRest(s)
    requires Lists(listing, s.disk) && SimpleUser(k.user)
    ensures Replay(Store(disk, map[]), s.hist).Some?
    ensures SizeOnDisk(listing, Normalized(UserDir(k.user)), k.name) ==
            (if k in s.index && !LeftStale(Store(disk, map[]), s.hist, k)
             then Some(s.index[k]) else None)
  {
    ReachesInv(disk, choices, s);
    RestingCell(s, Store(disk, map[]), k);
    StaleExactly(Store(disk, map[]), s.hist, k);
    RebuildReadsDisk(listing, s.disk, k);
  }
}
