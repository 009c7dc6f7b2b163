/** MetadataManager: the in-memory index, directory by directory. */
module Metadata {
  import opened Basics
  import opened Paths

  /** directory -> (file name -> size); upload times are not modelled. */
  type Index = map<Bytes, map<Bytes, nat>>

  function SizeAt(index: Index, dir: Bytes, name: Bytes): Option<nat> {
    if dir in index && name in index[dir] then Some(index[dir][name]) else None
  }

  /** `after` holds `size` for one file and what `before` held for all others. */
  ghost predicate Rewrites(before: Index, after: Index, dir: Bytes, name: Bytes, size: Option<nat>) {
    && SizeAt(after, dir, name) == size
    && forall d, n :: (d, n) != (dir, name) ==> SizeAt(after, d, n) == SizeAt(before, d, n)
  }

  /** No directory is kept without files. */
  ghost predicate NoEmptyDir(index: Index) {
    forall d :: d in index ==> index[d] != map[]
  }

  /** `index_[dir][name] = size`. */
  function Put(index: Index, dir: Bytes, name: Bytes, size: nat): (r: Index)
    requires NoEmptyDir(index)
    ensures NoEmptyDir(r)
    ensures Rewrites(index, r, dir, name, Some(size))
  {
    var inner: map<Bytes, nat> := (if dir in index then index[dir] else map[])[name := size];
    assert name in inner;
    index[dir := inner]
  }

  // ----- directory listings, as rebuild_from_disk iterates over them

  datatype FileEntry = FileEntry(name: Bytes, regular: bool, size: nat)

  datatype DirEntry = DirEntry(name: Bytes, isDirectory: bool, files: seq<FileEntry>)

  function SizeInDir(files: seq<FileEntry>, name: Bytes): Option<nat> {
    if files == [] then None
    else
      var f := files[|files| - 1];
      if f.regular && f.name == name then Some(f.size)
      else SizeInDir(files[..|files| - 1], name)
  }

  /** The size a storage directory holds for a file, under the index's directory key. */
  function SizeOnDisk(listing: seq<DirEntry>, dir: Bytes, name: Bytes): Option<nat> {
    if listing == [] then None
    else
      var d := listing[|listing| - 1];
      if d.isDirectory && Normalized(UserDir(d.name)) == dir && SizeInDir(d.files, name).Some?
      then SizeInDir(d.files, name)
      else SizeOnDisk(listing[..|listing| - 1], dir, name)
  }

  /** One directory's files over what the index held before. */
  function SizeOver(index: Index, dirKey: Bytes, files: seq<FileEntry>, d: Bytes, n: Bytes): Option<nat> {
    if d == dirKey && SizeInDir(files, n).Some? then SizeInDir(files, n) else SizeAt(index, d, n)
  }

  /** Where the iteration throws: after so many directories, and so many files of the next one. */
  type Fault = Option<(nat, nat)>

  /** What of the listing is read before that. */
  function Seen(listing: seq<DirEntry>, fault: Fault): seq<DirEntry> {
    if fault.None? || fault.value.0 >= |listing| then listing
    else
      var d := listing[fault.value.0];
      listing[..fault.value.0] + [d.(files := d.files[..Min(fault.value.1, |d.files|)])]
  }

  class MetadataManager {
    var index: Index

    ghost predicate Valid()
      reads this
    {
      NoEmptyDir(index)
    }

    constructor ()
      ensures Valid() && index == map[]
    {
      index := map[];
    }

    method AddFile(directory: Bytes, filename: Bytes, size: nat)
      requires Valid()
      modifies this
      ensures Valid()
      ensures Rewrites(old(index), index, Normalized(directory), filename, Some(size))
    {
      var dir := NormalizePath(directory);
      index := Put(index, dir, filename, size);
    }

    method RemoveFile(directory: Bytes, filename: Bytes)
      requires Valid()
      modifies this
      ensures Valid()
      ensures Rewrites(old(index), index, Normalized(directory), filename, None)
    {
      var dir := NormalizePath(directory);
      if dir in index {
        var inner := index[dir] - {filename};
        assert forall n :: n in index[dir] && n != filename ==> n in inner;
        index := if inner == map[] then index - {dir} else index[dir := inner];
      }
    }

    method FileExists(directory: Bytes, filename: Bytes) returns (found: bool)
      ensures found <==> SizeAt(index, Normalized(directory), filename).Some?
    {
      var dir := NormalizePath(directory);
      found := dir in index && filename in index[dir];
    }

    method GetFileSize(directory: Bytes, filename: Bytes) returns (size: nat)
      ensures var r := SizeAt(index, Normalized(directory), filename);
              size == if r.Some? then r.value else 0
    {
      var dir := NormalizePath(directory);
      if dir in index {
        if filename in index[dir] {
          return index[dir][filename];
        }
      }
      return 0;
    }

    /** The directory's entries, each exactly once, in some order. */
    method ListDirectory(directory: Bytes) returns (result: seq<(Bytes, nat)>)
      ensures forall n, z ::
                (n, z) in result <==> SizeAt(index, Normalized(directory), n) == Some(z)
      ensures forall i, j :: 0 <= i < j < |result| ==> result[i].0 != result[j].0
    {
      var dir := NormalizePath(directory);
      result := [];
      if dir in index {
        var todo := index[dir].Keys;
        while todo != {}
          invariant todo <= index[dir].Keys
          invariant forall n, z ::
                      (n, z) in result <==> n in index[dir] && n !in todo && index[dir][n] == z
          invariant forall i, j :: 0 <= i < j < |result| ==> result[i].0 != result[j].0
          decreases todo
        {
          var n :| n in todo;
          assert forall i :: 0 <= i < |result| ==> result[i] in result && result[i].0 !in todo by {
            forall i | 0 <= i < |result| ensures result[i].0 !in todo {
              assert (result[i].0, result[i].1) in result;
            }
          }
          result := result + [(n, index[dir][n])];
          todo := todo - {n};
        }
      }
    }

    /** Afterwards the index holds exactly the sizes found on disk, as far as it was read. */
    method RebuildFromDisk(storageExists: bool, listing: seq<DirEntry>, fault: Fault)
      modifies this
      ensures Valid()
      ensures forall d, n ::
                SizeAt(index, d, n) == (if storageExists then SizeOnDisk(Seen(listing, fault), d, n) else None)
    {
      index := map[];
      if !storageExists {
        return;
      }
      var i := 0;
      while i < |listing|
        invariant 0 <= i <= |listing|
        invariant fault.Some? ==> i <= fault.value.0
        invariant NoEmptyDir(index)
        invariant forall d, n :: SizeAt(index, d, n) == SizeOnDisk(listing[..i], d, n)
      {
        var here := fault.Some? && fault.value.0 == i;
        if listing[i].isDirectory {
          AddDirectory(listing[i], if here then Some(fault.value.1) else None);
        }
        ghost var d := listing[i];
        ghost var read := d.(files := if here then d.files[..Min(fault.value.1, |d.files|)] else d.files);
        assert listing[..i] + [read] == if here then Seen(listing, fault) else listing[..i + 1];
        LastSize(listing[..i], read);
        if here {
          return;
        }
        i := i + 1;
      }
      assert listing[..i] == listing;
    }

    /** One directory's files over what is indexed, the first `limit` of them if there is one. */
    method AddDirectory(d: DirEntry, limit: Option<nat>)
      requires Valid() && d.isDirectory
      modifies this
      ensures Valid()
      ensures var files := if limit.Some? then d.files[..Min(limit.value, |d.files|)] else d.files;
              forall dir, n ::
                SizeAt(index, dir, n) == SizeOver(old(index), Normalized(UserDir(d.name)), files, dir, n)
    {
      var dirKey := NormalizePath(UserDir(d.name));
      var files := d.files;
      var j := 0;
      while j < |files|
        invariant 0 <= j <= |files|
        invariant limit.Some? ==> j <= limit.value
        invariant NoEmptyDir(index)
        invariant forall d, n :: SizeAt(index, d, n) == SizeOver(old(index), dirKey, files[..j], d, n)
      {
        if limit == Some(j) {
          return;
        }
        assert files[..j + 1][..j] == files[..j];
        if files[j].regular {
          index := Put(index, dirKey, files[j].name, files[j].size);
        }
        j := j + 1;
      }
      assert files[..j] == files;
    }
  }

  lemma LastSize(listing: seq<DirEntry>, d: DirEntry)
    ensures forall dir, n ::
      SizeOnDisk(listing + [d], dir, n) ==
      if d.isDirectory && Normalized(UserDir(d.name)) == dir && SizeInDir(d.files, n).Some?
      then SizeInDir(d.files, n) else SizeOnDisk(listing, dir, n)
  {
    assert (listing + [d])[..|listing|] == listing;
  }
}
