# Verification of MTFSS, the multi-threaded file storage server

A Dafny model of the server's concurrent file store, metadata index, task queue, thread pool,
wire protocol and sessions, and of the client that talks to it, with proofs of what they promise
together. `dafny verify dfyconfig.toml` checks everything.

## What is modelled

**The concurrent file store** (`StoreMachine`, proofs in `StoreInvariant` … `StoreProgress`, `Waits`, `Announced`, `Cleanup`).
Any number of uploads, downloads, deletions and renames run at once; each is a program counter with
its locals, and one step is one library call or one statement: taking a reference, locking,
truncating, one 8 KiB chunk, closing, one index update, unlocking, releasing. Lock entries are
objects with identities (`FileLocks`): an operation locks the entry its own pointer names, so that
two operations on one path lock the same entry is a theorem. `AtomicStore` is the meaning: a map
from (user, name) to bytes in which each operation happens in one piece, plus the index entries
left behind by failed overwrites. The main results relate the two over every interleaving:
linearizability in real-time order, exclusion per path, exact reference counts, agreement of disk
and index, no torn reads, survival of files nobody takes away, the announced against the sent length, who waits
for whom, no deadlock, and restart equivalence. `Witnesses` holds concrete runs for what the store does not promise. Paths are (user, name)
pairs there; `Paths` models the strings the code makes of them and proves for which pairs the two agree.

**The same operations as objects** (`LockManager`, `Metadata`, `FileManager`). Classes with the
source's fields, updated in place, chunk loops included. Every method is proved to perform one
atomic operation of `AtomicStore` and to move the reference counts exactly as the source does.

**Queue, pool and shutdown** (`TaskQueue`, `PoolMachine`, `PoolInvariant`, `PoolTheorems`).
The critical sections of `push` and `pop` are class methods; the monitor is a state machine with
explicit waiters, notifications that are steps of their own, woken threads and spurious wakeups,
from the accepted socket to its close. Results: no lost wakeups, no stuck state, in-order and
exactly-once draining, every connection in exactly one place, the active count, and termination of
shutdown under every schedule. `PoolWitnesses` holds concrete runs for what the pool does not promise.

**Wire protocol and sessions** (`Network`, `Wire`, `Protocol`, `Session`, `Server`, `Client`,
`Lockstep`, `Answers`, `Users`; examples in `GoodSessions` and `SessionWitnesses`). `send` and `recv` move any positive number of bytes. Byte order, framing,
`handle_client` and the client's methods are proved against functions on byte streams, and those
functions are composed: one exchange keeps both ends at a frame boundary, serial runs of many clients
refine calls without a network, stale entries in the store or not, uploads and renamed files come back
byte for byte, deleted files do not, lists show what is stored, and different users commute. `Answers` says
what every frame looks like and what every answer means for the files, by number and by content.

## What the code decides

- A lock reference is not given back by a completed download, by an upload the network breaks, and
  by an exception after the reference was taken (src/server/file_manager.cpp:181-182, :99-104,
  :118-122, :219-221, :263-265). The project's README.md:20 says entries are erased when the count drops
  to zero; `LockMapAtRest` says exactly which entries stay for ever, `EntryLeft` gives a run that leaves one.
- A broken upload removes the file it was overwriting but not its index entry
  (src/server/file_manager.cpp:99-104). `StaleExactly` and `IndexAgrees` characterise these keys, `EntryStale` gives a run.
- A download of a stale key is announced with the old size, then the server closes
  (src/server/server.cpp:172-187). If that size is 0 the client reports an empty download as a
  success before it notices (`BrokenExactly`, `DownloadBreaksOff`).
- `DOWNLOAD` reads the size without the file lock, in two separately locked index reads
  (src/server/file_manager.cpp:140-143): with a delete between them the size is 0 and the status OK.
  `AnnouncedLength` says exactly when a completed download sends the announced number of bytes. Three runs
  where it is not: `LengthsDiffer` (an upload in between), `StaleRename` (a rename that has moved an empty
  file onto a stale key and not yet written its index entry when the size is read: one byte announced, none
  sent, though nobody writes the file afterwards), `GoneBetween` (the delete between the two reads: OK with
  size 0, and then no file).
- A file name may begin with a drive designator or hold a NUL byte; `is_valid_filename` looks for neither
  (src/server/file_manager.cpp:55-60). On Windows `operator/` lets the name `C:b` replace the user's
  directory, so that it is one file, with one lock and one index entry per user, for everybody
  (`DriveShared`). On either host the system calls cut a path at a NUL, so that two names can be one file
  under two locks (`NulShared`). `SameLock` and `SameFile` say exactly which pairs share a lock and a file;
  see the assumption on plain names.
- `normalize_path` drops one trailing slash only and is not idempotent (`NormalizedTwice`).
- A full queue makes `push` wait, not `accept` as README.md:18 has it.
- The queue is drained at shutdown by the workers (README.md:24): with no worker at all, the tasks
  stay queued (`NeverCalled`).
- A task that throws leaves its socket open and the active count one too high; the worker goes on
  (src/server/server.cpp:266-268, src/server/thread_pool.cpp:52-59): `CountLeft` gives a run.
- If `fs::remove` throws while a broken upload is cleaned up (src/server/file_manager.cpp:102), part of the
  upload stays on disk under the old index entry. No step of `StoreMachine` does that; `Cleanup` adds the
  step: exclusion and exact counts still hold (`ExclusionAlways`, `CountAlways`), runs without that step are
  the runs of `StoreMachine` (`NoneThrew`), and in a run with it the index disagrees with the disk and a
  completed download sends what nobody stored (`CleanupThrew`).

## Assumptions

- User names are single path components (no `/`, no `\`, neither `.` nor `..`); only the server writes in
  the storage directory.
- Names are plain (`Paths.PlainName`): they hold no NUL byte and, on Windows, do not begin with a drive
  designator. `FileManager` and `Server` require it (`PlainUser`, `PlainIfValid`, `GoodNames`). Whatever is
  stated of (user, name) pairs as different files (`Linearizable`, `PathExclusion`, `NoTornRead`,
  `RestartEquivalence`, `MeaningLocal`, `MeaningsCommute`, `SwapUsers` and the rest of the store, session
  and client modules) is about runs in which all names are plain: `PlainApart` gives them paths and files
  of their own, `NotPlainShares` shows that every other valid name shares its file with a further one.
- The filesystem takes the strings for what they are: names are case-sensitive, and no device names,
  stream suffixes, trailing dots or spaces make two of them one file.
- Writing to an opened local file succeeds. A filesystem call that throws has had no effect, and
  `fs::remove` does not throw on a broken upload's partial file: `Linearizable`, `NoTornRead` and
  `IndexAgrees` are about runs in which it does not, which `NoneThrew` identifies.
- `GoodInput` is what is assumed of a client's bytes: complete requests upload less than 2^64 - 1 bytes,
  log in with simple plain names and touch files with plain names; on a connection that reports no errors,
  lengths read in one piece fit in a positive `int`. On one that does, this is asked of the requests and,
  behind the names of an upload, wherever in its payload reading may stop (`LoginUploadDownload`,
  `FramesGood`).
- File sizes stay below 2^64 - 1, the value that stands for "absent". Lengths handled by one
  `send_all` or `recv_all` call fit in a positive `int`.
- Fewer than 2^32 references per path are outstanding: at every point of a run (`Bounded`), with the
  unfinished operations on the path where they are to finish (`Room`), with the requests of a session
  that may leak one (`Spare`).
- A reader may enter a shared mutex whenever no writer is inside; `std::lock` takes one mutex and
  tries the other, and backs off when it fails.
- Every socket returned by `accept` has a new name. Every task returns or throws.
- Fields called history variables (`spec`, `hist`, `born`, `at`, `leaked`, `owed`, `place`,
  `accepted`, `taken`, `begun`, `closes`, `lost`) record the past; no step's guard reads them, but for
  the newness of an operation's reference and of a socket.
- Parameters stand for the outside world: what the network moves and when it fails, whether a file
  can be created and whether a filesystem call throws (`Fate`, `Fault`), how a listing becomes text, the host's byte order.

## Model

| member | source | states |
|---|---|---|
| StoreTheorems.Linearizable | src/server/file_manager.cpp:65-266 | After any interleaving the history of effects is a legal run of the atomic store, every finished operation is in it exactly once, between its start and its return, with the answer it gave, and nothing else is in it; at rest the disk is the history's result. (Assuming `fs::remove` does not throw on a broken upload's partial file.) |
| StoreTheorems.EffectInside | src/server/file_manager.cpp:82-116 | The step by which an operation takes effect is taken while it holds the mutex of each of its paths, for reading only if it is a download, and adds this operation's event and no other. |
| StoreTheorems.RealTimeOrder | src/server/file_manager.cpp:81-115 | An operation that returned before another began takes effect before it. |
| StoreTheorems.FileSurvives | src/server/file_manager.cpp:189-266 | A file on disk that nobody is writing keeps its content under any interleaving until an upload of it, a deletion of it or a rename of it to another name takes effect; no rename overwrites it. |
| StoreTheorems.PathExclusion | src/server/file_manager.cpp:34-52 | Two operations inside the critical section of one path both only read, and came in through the same lock entry, however often entries were erased and created again. |
| FileLocks.SameEntry | src/server/file_manager.cpp:34-41 | All operations holding a reference to a path point to the entry now in the map. |
| FileLocks.Exclusion | src/server/file_manager.cpp:82-154 | On one path a writer excludes every other writer and every reader. |
| FileLocks.AcquireInv | src/server/file_manager.cpp:34-41 | Taking a reference keeps counts exact, pointers current and mutexes owned by those who locked them. |
| FileLocks.ReleaseInv | src/server/file_manager.cpp:43-52 | So does giving one back, whether or not the entry is erased. |
| FileLocks.LeakInv | src/server/file_manager.cpp:99-104 | And leaving without giving it back. |
| FileLocks.LockWriteInv | src/server/file_manager.cpp:82 | And locking for writing. |
| FileLocks.LockReadInv | src/server/file_manager.cpp:154 | And locking for reading. |
| FileLocks.UnlockInv | src/server/file_manager.cpp:114-115 | And unlocking. |
| StoreTheorems.ExactCount | src/server/file_manager.cpp:34-52 | A path has an entry exactly when some reference to it is live or leaked, and ref_count is their number. |
| StoreTheorems.LockMapAtRest | src/server/file_manager.cpp:181-182 | When nothing runs, the map holds exactly the paths of completed downloads, broken uploads and operations ended by an exception. |
| StoreTheorems.IndexAgrees | src/server/file_manager.cpp:84-116 | For a path nobody is writing, a file on disk is indexed with its exact size, and an entry without a file is exactly one left by a failed overwrite and not healed since. (Same assumption.) |
| AtomicStore.StaleExactly | src/server/file_manager.cpp:99-104 | A key is stale exactly when an upload destroyed its file and no completed upload or rename onto it came later. |
| AtomicStore.EvolvesMore | src/server/server.cpp:114-264 | Requests that each perform at most one atomic operation compose to a history of atomic operations. |
| AtomicStore.EffectFrame | src/server/file_manager.cpp:65-266 | An operation changes only the files and entries it names. |
| AtomicStore.AnswersTrue | src/server/file_manager.cpp:65-266 | In a legal history every answer is true of the files before and after it (a rename reported done found its old name and a free new one, a refused one did not), and only the files the answer speaks of have changed. |
| AtomicStore.Survives | src/server/file_manager.cpp:243-249 | A file that no upload replaces or breaks, no deletion removes and no rename moves away is still there with its content at the end of any legal history. |
| StoreTheorems.NoTornRead | src/server/file_manager.cpp:153-182 | The bytes of a completed download are one whole uploaded payload or startup file, followed through renames; those of a broken one are a prefix of such a payload. (Same assumption.) |
| AtomicStore.Provenance | src/server/file_manager.cpp:241-251 | Every stored file is the payload of one upload or one startup file, found by following renames back. |
| StoreTheorems.ReadInProgress | src/server/file_manager.cpp:164-179 | While a download runs, what it has sent is a prefix of the file on disk and nobody is writing it. |
| Announced.AnnouncedLength | src/server/server.cpp:172-185 | With the existence and the size read at any two moments before the download: a completed download sends exactly the announced number of bytes if and only if the last upload or rename onto the path that took effect after the second read left a file of that size, or there was none and a rename onto the path that was between its move and its index update at that moment, if there was one, had brought a file of that size. |
| Announced.IndexExact | src/server/file_manager.cpp:243-256 | Writers included, a file of the atomic store is indexed with its exact size at all times but between a rename onto it and its index update. |
| Witnesses.LengthsDiffer | src/server/server.cpp:172-185 | A run in which one byte is announced, an upload comes in between, and none is sent. |
| Witnesses.StaleRename | src/server/file_manager.cpp:251-256 | A run in which one byte is announced and none is sent although no upload or rename takes effect in between: the size was read while a rename had moved an empty file onto a stale key. |
| Witnesses.GoneBetween | src/server/file_manager.cpp:138-144 | A run in which a deletion between the two reads makes the announced size 0, and the download then finds no file. |
| Witnesses.EntryLeft | src/server/file_manager.cpp:181-182 | A run at rest with an entry in the lock map. |
| Witnesses.EntryStale | src/server/file_manager.cpp:99-104 | A run at rest with an indexed key whose file a broken upload destroyed. |
| Cleanup.NoneThrew | src/server/file_manager.cpp:99-104 | Runs in which the removal of a partial file may throw and does not are exactly the runs of the store. |
| Cleanup.ExclusionAlways | src/server/file_manager.cpp:34-52 | Exclusion per path holds also in runs in which it throws. |
| Cleanup.CountAlways | src/server/file_manager.cpp:34-52 | So do the exact reference counts. |
| Cleanup.CleanupThrew | src/server/file_manager.cpp:99-122 | A run at rest in which it threw: the index says one byte where the disk has none, and a completed download sent bytes that are no upload's payload and no startup file. |
| Waits.ReaderEnters | src/server/file_manager.cpp:153-154 | In every reachable state a download that waits for its lock can enter if and only if nobody holds the path for writing: downloads of one file run together. |
| Waits.WriterEnters | src/server/file_manager.cpp:81-82 | An upload or a deletion can if and only if nobody holds the path at all. |
| Waits.RenameEnters | src/server/file_manager.cpp:236-241 | A rename can take either of its mutexes first, and then the other, if and only if nobody holds it. |
| Waits.OthersGoOn | src/server/file_manager.cpp:65-266 | Nobody waits anywhere else: every other unfinished operation has a step to take whatever the others do. |
| Waits.FailuresCome | src/server/file_manager.cpp:85-104 | A failing open, a call that throws before it has an effect, a broken receive and a send broken after any number of bytes of a chunk can come at every point where the code makes these calls. |
| Waits.SendsByChunk | src/server/file_manager.cpp:164-179 | A download sends 8192 bytes in one step and goes on, or the fewer bytes left and is done. |
| Waits.ReceivesByChunk | src/server/file_manager.cpp:93-108 | An upload receives 8192 bytes in one step, the last time what is left. |
| Witnesses.TwoReaders | src/server/file_manager.cpp:154 | A run in which two downloads of one file are both sending. |
| StoreProgress.NoDeadlock | src/server/file_manager.cpp:236-241 | In every reachable state with an unfinished operation some unfinished operation can step, opposite renames included. |
| StoreProgress.EveryoneCanFinish | src/server/file_manager.cpp:236-241 | From every reachable state all operations can be run to their end without any failure, if on no path the leaked references and the unfinished operations reach 2^32. |
| StoreProgress.BackOffOk | src/server/file_manager.cpp:239-241 | An operation holding one mutex inside std::lock can always give it back. |
| StoreSteps.SaveOk | src/server/file_manager.cpp:84-116 | A step of an upload changes nothing outside its path and is either invisible in the atomic store or is the upload's one effect. |
| StoreSteps.StreamOk | src/server/file_manager.cpp:156-182 | The same for a step of a download. |
| StoreSteps.DeleteOk | src/server/file_manager.cpp:211-217 | The same for a step of a deletion. |
| StoreSteps.RenameOk | src/server/file_manager.cpp:243-261 | The same for a step of a rename. |
| StoreSteps.ThrowOk | src/server/file_manager.cpp:118-122 | An exception is an effect of its own that changes nothing. |
| StoreLocking.PlanOk | src/server/file_manager.cpp:81-115 | The program counters account for every reference and lock the code takes and gives back. |
| StorePreserved.StepInv | src/server/file_manager.cpp:65-266 | Every step of every operation keeps the invariant over locks, disk, index and history. |
| StorePreserved.RunInv | src/server/file_manager.cpp:65-266 | The invariant holds after every run from every startup disk. |
| Restart.RestartEquivalence | src/server/metadata_manager.cpp:104-144 | With no operation in progress, rebuilding gives the running index without its stale entries, names and sizes alike. |
| Restart.RebuildReadsDisk | src/server/metadata_manager.cpp:113-138 | Scanning any listing of the disk finds each file with its size and nothing else. |
| Paths.IsValidFilename | src/server/file_manager.cpp:55-60 | Accepts exactly the nonempty names other than `.` without the bytes of `/` and `\`, and without two adjacent dots. |
| Paths.StaysInside | src/server/file_manager.cpp:55-79 | The path of an accepted plain name, its `.` and `..` components folded away, is exactly one component below its user's directory, and that component is the name. |
| Paths.DotsLead | src/server/file_manager.cpp:56 | The path of `.` leads to that directory itself, the path of `..` out of it; neither name is accepted. |
| Paths.DotsInvalid | src/server/file_manager.cpp:57-58 | Two adjacent dots or a separator anywhere in a name make it invalid. |
| Paths.PathKeyIs | src/server/file_manager.cpp:78-79 | What `operator/` makes of directory, user and name: a name with a drive designator is the whole path, any other comes behind the user's directory. |
| Paths.SameLock | src/server/file_manager.cpp:78-81 | Two valid names of simple plain users have one lock entry exactly when they are equal and belong to one user or begin with a drive designator, on either kind of host. |
| Paths.SameFile | src/server/file_manager.cpp:84-102 | They are one file exactly when they agree up to their first NUL and belong to one user or begin with a drive designator. |
| Paths.PlainApart | src/server/file_manager.cpp:78-79 | Different plain keys have different paths, and the file a path reaches is the path. |
| Paths.NotPlainShares | src/server/file_manager.cpp:55-60 | Every valid name that is not plain shares its file with another valid key. |
| Paths.DriveShared | src/server/file_manager.cpp:78-79 | On Windows the valid name C:b is one path for any two users. |
| Paths.NulShared | src/server/file_manager.cpp:78-84 | On either host the names `a` and `a`, NUL, `b` are both valid, have different lock entries, and are one file. |
| Paths.NormalizePath | src/server/metadata_manager.cpp:16-25 | The in-place loop turns every backslash into a slash and drops one final slash. |
| Paths.UserDirNormal | src/server/metadata_manager.cpp:16-25 | The directory of a simple user is its own normal form. |
| Paths.UserDirInjective | src/server/metadata_manager.cpp:16-25 | No two simple users share a directory key. |
| Paths.NormalizedTwice | src/server/metadata_manager.cpp:16-25 | Normalizing twice equals normalizing once exactly when the path does not end in two separators after another byte. |
| Paths.NormalizedTwiceDiffers | src/server/metadata_manager.cpp:21-23 | A path on which it differs. |
| LockManager.FileLockManager.AcquireLockRef | src/server/file_manager.cpp:34-41 | Returns the path's entry, a new one if there was none, with its count one higher and all other counts unchanged. |
| LockManager.FileLockManager.ReleaseLockRef | src/server/file_manager.cpp:43-52 | Lowers the path's count, erases the entry at zero, leaves all others, ignores unknown paths. |
| LockManager.ReleaseUndoesAcquire | src/server/file_manager.cpp:34-52 | Below 2^32 references a release undoes an acquire. |
| LockManager.AcquireCounts | src/server/file_manager.cpp:34-41 | The concurrent lock table moves its counts as the class does. |
| LockManager.ReleaseCounts | src/server/file_manager.cpp:43-52 | The same for a release. |
| Metadata.MetadataManager.AddFile | src/server/metadata_manager.cpp:27-43 | One file's entry is the new size, every other entry is what it was, and no directory is empty. |
| Metadata.MetadataManager.RemoveFile | src/server/metadata_manager.cpp:45-54 | One file has no entry, every other entry is what it was, and a directory that became empty is gone. |
| Metadata.MetadataManager.FileExists | src/server/metadata_manager.cpp:68-76 | Whether the file has an entry under its normalized directory. |
| Metadata.MetadataManager.GetFileSize | src/server/metadata_manager.cpp:78-89 | The entry's size, 0 without one. |
| Metadata.MetadataManager.ListDirectory | src/server/metadata_manager.cpp:91-102 | The directory's entries, each exactly once. |
| Metadata.MetadataManager.RebuildFromDisk | src/server/metadata_manager.cpp:104-144 | Whatever was indexed before, afterwards exactly the regular files of the directories read are, all of them or those read before the iteration threw, and no directory is empty. |
| FileManager.FileManager.SaveFile | src/server/file_manager.cpp:65-123 | One atomic upload: the payload read from the socket is stored and indexed, or the old file is gone and its entry stale, or nothing happens, as for every name with two adjacent dots; the payload is consumed; the reference is kept exactly on failure. |
| FileManager.FileManager.WriteFile | src/server/file_manager.cpp:93-111 | The critical section of an upload, every outcome of the network included. |
| FileManager.FileManager.ReceiveInto | src/server/file_manager.cpp:93-108 | The chunk loop leaves the next bytes of the stream in the file, for any length and segmentation, or no file. |
| FileManager.FileManager.DiscardData | src/server/file_manager.cpp:125-136 | Exactly the announced bytes are dropped, or all there are. |
| FileManager.FileManager.StreamFileToSocket | src/server/file_manager.cpp:146-187 | One atomic download: the whole file goes out and the reference leaks, or a prefix goes out or the file is missing or its name is refused and it does not. |
| FileManager.FileManager.SendContent | src/server/file_manager.cpp:164-179 | The chunk loop sends the whole file, for any length, or a prefix when the network fails. |
| FileManager.FileManager.DeleteFile | src/server/file_manager.cpp:201-222 | One atomic deletion, on disk and in the index: it succeeds exactly when an accepted name's file was there and nothing threw, and otherwise changes nothing; its reference leaks exactly when the filesystem throws. |
| FileManager.FileManager.RemoveFile | src/server/file_manager.cpp:211-214 | The critical section of a deletion: succeeds exactly when the file is there, and takes it from disk and index. |
| FileManager.FileManager.RenameFile | src/server/file_manager.cpp:224-266 | One atomic rename, on disk and in the index: when it succeeds, the old name had a file, the new one had none, and the file has moved; when it fails nothing has changed, as for every name with two adjacent dots; the two references leak exactly when the filesystem throws. |
| FileManager.FileManager.MoveFile | src/server/file_manager.cpp:243-256 | The critical section of a rename: succeeds exactly when the old file is there and the new one is not, and moves it. |
| FileManager.ReleasesUndo | src/server/file_manager.cpp:236-261 | The two releases of a rename undo its two acquires. |
| FileManager.FileManager.GetFileSize | src/server/file_manager.cpp:138-144 | The indexed size, stale entries included, or the largest 64-bit value. |
| FileManager.FileManager.ListFiles | src/server/file_manager.cpp:189-199 | The user's names and sizes as the index has them. |
| TaskQueue.TaskQueue.PushSection | src/server/task_queue.cpp:9-22 | Appends exactly when there is room and no shutdown, refuses after shutdown, waits otherwise; the bound is kept. |
| TaskQueue.TaskQueue.PopSection | src/server/task_queue.cpp:28-42 | Takes the oldest task, also after shutdown; ends exactly when shut down and empty. |
| TaskQueue.TaskQueue.Shutdown | src/server/task_queue.cpp:48-55 | Sets the flag. |
| TaskQueue.ThreadPool.Shutdown | src/server/thread_pool.cpp:22-40 | The first call shuts the queue down, every later one changes nothing. |
| TaskQueue.ThreadPool.WorkerLoop | src/server/thread_pool.cpp:42-63 | A worker alone with a queue already shut down runs every task left, in order, catching those that throw, and returns. |
| PoolInvariant.StepInv | src/server/task_queue.cpp:9-55 | Every step of acceptor, workers, sessions and shutdown keeps the monitor's invariant. |
| PoolTheorems.RunInv | src/server/thread_pool.cpp:42-63 | The invariant holds after every run. |
| PoolTheorems.NoLostWakeup | src/server/task_queue.cpp:24-54 | While a consumer waits, pending and delivered wakeups cover the queue; while a producer waits they cover the free slots of a bounded queue; after shutdown a waiter still has its broadcast to come. |
| PoolTheorems.NotStuck | src/server/task_queue.cpp:9-55 | With workers, nothing can move by itself exactly when every connection has been dealt with and all workers wait for more or, after shutdown, all were joined. |
| PoolTheorems.NobodyTurnedAway | src/server/task_queue.cpp:9-19 | Before shutdown no connection is refused, whatever the queue holds, and no worker returns. |
| PoolTheorems.DrainInOrder | src/server/task_queue.cpp:21-41 | Accepted tasks in push order are the popped tasks followed by the queue, without repetition, and a bounded queue keeps its bound. |
| PoolTheorems.DrainedOnce | src/server/thread_pool.cpp:42-63 | Once all of one or more workers have returned, the queue is empty and every accepted task has been called exactly once. |
| PoolTheorems.ShutdownBounded | src/server/thread_pool.cpp:22-63 | After shutdown was called every step uses up a measure over tasks, waiters, worker phases, broadcasts and joins, under any schedule and any spurious wakeups. |
| PoolTheorems.ShutdownEnds | src/server/thread_pool.cpp:22-40 | A run from there that cannot go on has joined every worker, after each of them returned, and every push call has ended. |
| PoolTheorems.OnePlace | src/server/server.cpp:57-92 | Every accepted socket is in exactly one place: offered to the queue or refused and still open, queued, in one worker's hands, closed once, or lost to an exception. |
| PoolWitnesses.CountLeft | src/server/server.cpp:266-268 | A run with one throwing task after which shutdown has returned, the count is 1 and the socket open. |
| PoolWitnesses.NeverCalled | src/server/thread_pool.cpp:42-63 | A run without workers after which shutdown has returned and an accepted task was never called. |
| PoolTheorems.ActiveCount | src/server/server.cpp:110-112 | The active count is the number of sessions begun and not counted down, plus those that threw; without exceptions it is at most the number of workers, and zero once all have returned. |
| Network.SendAll | src/common/network_utils.cpp:6-34 | All bytes go out in order whatever each send takes, or a prefix does and the call fails. |
| Network.RecvAll | src/common/network_utils.cpp:36-63 | The buffer receives exactly the next bytes of the stream however they were cut, the rest of it is untouched; without errors it fails only when too few bytes come. |
| Wire.HtonllImage | src/common/protocol.cpp:7-9 | On a host of either byte order the macro's result lies in memory most significant byte first. |
| Wire.HtonllInvolution | src/common/protocol.cpp:7-12 | ntohll undoes htonll for every 64-bit value on either host. |
| Wire.HtonlInvolution | src/common/protocol.cpp:18-31 | The same for the 32-bit fields. |
| Wire.BigEndianDigits | src/common/protocol.cpp:16-24 | Byte by byte, the digits of a number to the base 256, the highest first. |
| Wire.BigEndianRoundTrip | src/common/protocol.cpp:16-36 | Reading back the bytes of a number gives the number. |
| Protocol.NetworkImageIsBigEndian | src/common/protocol.cpp:16-24 | The header struct after conversion is the big-endian header, on either host. |
| Protocol.SendHeader | src/common/protocol.cpp:16-24 | Puts the 32 header bytes on the wire. |
| Protocol.RecvHeader | src/common/protocol.cpp:26-36 | Reads them back into the same fields, on either host. |
| Protocol.SendMessage | src/common/protocol.cpp:38-61 | Header, names and payload in this order; no payload for a null pointer or an announced length of 0. |
| Protocol.SendMessageMeta | src/common/protocol.cpp:97-113 | The same without payload. |
| Protocol.RecvMessage | src/common/protocol.cpp:63-95 | Succeeds exactly when a whole frame comes, returns it, and leaves what follows it. |
| Protocol.RecvMessageMeta | src/common/protocol.cpp:115-138 | The same up to the payload, which stays in the stream. |
| Protocol.ParseEncode | src/common/protocol.cpp:38-95 | Decoding an encoded message gives it back and leaves exactly the bytes behind it. |
| Protocol.EncodeParse | src/common/protocol.cpp:38-95 | Whatever decodes is the encoding of what it decodes to. |
| Protocol.FramesDecode | src/common/protocol.cpp:16-95 | Concatenated frames decode to the messages sent, nothing left over. |
| Protocol.FramesUnique | src/common/protocol.cpp:16-95 | Different message sequences have different bytes. |
| Session.FramesServed | src/server/server.cpp:114-264 | Serving the bytes of well-formed requests is serving the requests one after the other. |
| Session.ServeFlow | src/server/server.cpp:137-258 | A session ends only on QUIT or after a broken download, and only LOGIN changes its user. |
| Session.ServeKeeps | src/server/server.cpp:137-258 | A complete request never makes an entry stale. |
| Session.BrokenExactly | src/server/server.cpp:166-193 | A download breaks off exactly when a logged-in user's name is indexed but has no readable file. |
| Answers.RequestFrame | src/common/protocol.h:15-59 | The bytes of every request: command number, zero status, the three lengths, user name, file name, payload; a rename sends the old name as file name and the new one as payload. |
| Answers.ReplyFrame | src/common/protocol.h:61-72 | The bytes of every reply. |
| Answers.PlainAnswers | src/server/server.cpp:138-256 | Command 1 answers 200 and changes the user, 7 answers 200 and ends the session, unknown numbers answer 400, and 2 to 6 answer 400 without a login; no file changes. |
| Answers.LoginBytes | src/server/server.cpp:138-145 | A login byte by byte: the frame that asks, the 200 frame that answers, and nothing else read or written. |
| Answers.UploadAnswered | src/server/server.cpp:147-165 | With a login command 2 answers 201 and the payload is stored, or 500 and nothing has changed; which of them is decided by the name and by whether the file can be created. |
| Answers.TruncatedAnswered | src/server/file_manager.cpp:99-104 | An upload that breaks off answers 500; the old file is gone, its index entry is not. |
| Answers.DownloadAnswered | src/server/server.cpp:166-193 | With a login command 3 answers 200 with the file exactly when it is there under an accepted name, 404 exactly when the name is not indexed, and breaks off otherwise. |
| Answers.ListAnswered | src/server/file_manager.cpp:189-199 | With a login command 4 answers 200 with the text of exactly the indexed names and sizes of the user, or with "(Empty)" exactly when there are none. |
| Answers.EmptyExactly | src/server/file_manager.cpp:192 | If the text of a listing with names never reads "(Empty)", that is the answer exactly when no name of the user is indexed. |
| Answers.DeleteAnswered | src/server/server.cpp:207-222 | With a login command 5 answers 200 exactly when the file was there, the name accepted and nothing threw, and then neither file nor entry is left; 404 otherwise, and nothing has changed. |
| Answers.RenameAnswered | src/server/server.cpp:224-240 | With a login command 6 answers 200 and the file has moved to a name that was free, or 404 and nothing has changed, the two files of a conflict included; to the same name it answers 200 and nothing changes. |
| Answers.DotsAnswered | src/server/file_manager.cpp:55-60 | A name with two adjacent dots is refused by every command that takes one, and nothing has changed. |
| Answers.UploadHeard | src/client/client.cpp:140-191 | The client's upload returns true exactly when the file has been stored; otherwise nothing has changed. |
| Answers.DownloadHeard | src/client/client.cpp:193-270 | Its download returns true exactly when the local file holds the stored bytes, or is empty because a stale entry announced size 0. |
| Answers.DeleteHeard | src/client/client.cpp:75-78 | Its deletion returns true exactly when a file was there and is not any more. |
| Answers.RenameHeard | src/client/client.cpp:80-83 | Its rename to another name returns true exactly when the file has moved from the old name to the new one, which was free; otherwise nothing has changed. |
| Answers.OthersHeard | src/client/client.cpp:64-97 | Login and quit return true, list exactly with a login; none of them changes a file. |
| Server.Server.HandleClient | src/server/server.cpp:110-272 | On any connection and whatever the modelled failures of the filesystem are (`Fate`: a file that cannot be created, a call that throws before it has an effect), the store moves by atomic operations only and the connection is counted down again; when the network reports no errors, the session leaves the store and sends the bytes that serving the incoming stream means, request by request, under what the filesystem did to each, wherever the stream ends. |
| Server.Server.HandleRequest | src/server/server.cpp:114-264 | One iteration of the loop performs at most one atomic operation and leaves good input behind, whatever the network does and whichever of these failures occur; without network errors it reads, does, answers and leaves in the stream what the request means, for complete requests, truncated uploads and truncated requests. |
| Server.Server.HandleUpload | src/server/server.cpp:147-165 | Consumes the payload also without login, stores it or fails, and answers. |
| Server.Server.HandleDownload | src/server/server.cpp:166-193 | Not found, or the announced header and the file, or the header and the end of the session. |
| Server.Server.HandleList | src/server/server.cpp:195-205 | Answers the user's listing. |
| Server.Server.HandleDelete | src/server/server.cpp:207-222 | Deletes and answers, filesystem exceptions included. |
| Server.Server.HandleRename | src/server/server.cpp:224-240 | Renames to the name in the payload and answers, filesystem exceptions included. |
| Server.Server.Dispatch | src/server/server.cpp:137-258 | The switch: login, quit, unknown commands and the login requirement. |
| Server.GoodNext | src/server/server.cpp:114-165 | Behind any request that was dealt with, a failed upload on a failing connection included, the input is good again. |
| GoodSessions.LoginUploadDownload | src/server/server.cpp:114-165 | A session that logs in, uploads and downloads meets the assumptions on a failing connection. |
| GoodSessions.FramesGood | src/server/server.cpp:114-165 | Any sequence of requests within the limits meets those on a connection without errors. |
| SessionWitnesses.DownloadBreaksOff | src/server/server.cpp:172-187 | After a broken upload over a file its download fails and the server is gone; an old file without content makes the client report an empty download. |
| AtomicStore.SizedAfter | src/server/file_manager.cpp:138-144 | No operation makes a size collide with the "absent" value. |
| Client.Client.SendCommand | src/client/client.cpp:99-115 | The encoded request goes out, the reply at the head of the stream is consumed, and its status decides. |
| Client.Client.UploadFile | src/client/client.cpp:140-191 | Header and file go out as one frame for any length; nothing happens without connection or user name. |
| Client.Client.DownloadFile | src/client/client.cpp:193-270 | The local file is exactly the reply's payload, or gone when the stream ends inside it, and untouched otherwise; error texts and files that cannot be created are read off the stream; nothing happens without connection or user name. |
| Client.Client.ReceiveFile | src/client/client.cpp:252-266 | The chunk loop writes the announced bytes, or removes the partial file. |
| Client.Client.ReceiveResponse | src/client/client.cpp:117-138 | Consumes exactly one frame, or disconnects. |
| Client.Client.Login | src/client/client.cpp:64-68 | The login exchange, with the new name in the request. |
| Client.Client.ListFiles | src/client/client.cpp:70-73 | The list exchange. |
| Client.Client.DeleteFile | src/client/client.cpp:75-78 | The delete exchange. |
| Client.Client.RenameFile | src/client/client.cpp:80-83 | The rename exchange, with the new name as payload. |
| Client.Client.DoQuit | src/client/client.cpp:85-97 | Sends QUIT, reads the answer if one comes, and disconnects. |
| Client.RequestMatches | src/common/protocol.h:47-59 | Every request announces the lengths of its fields. |
| Lockstep.LockstepExactly | src/client/client.cpp:99-270 | Whatever the operation, it never hangs, does and answers what the session means, and leaves no byte in either direction; both ends go on talking exactly when the client did not quit and the download did not break off, and a client whose download broke off knows unless the stale size was 0. |
| Lockstep.ReplyRead | src/client/client.cpp:117-226 | What the client makes of the bytes of any reply is what the server meant by it. |
| Lockstep.HealthyKept | src/server/server.cpp:137-258 | Complete requests keep a store without stale entries that way. |
| Lockstep.HealthyNeverBreaks | src/server/server.cpp:172-187 | In such a store no download breaks off. |
| Users.RunRefines | src/server/server.cpp:114-264 | Serial runs of any clients, whatever stale entries the store holds: nobody hangs, everyone hears what the operation means without a network, after every operation open connections stand at a frame boundary with empty channels, and only QUIT and broken downloads end sessions. |
| Users.RoundTrip | src/client/client.cpp:171-266 | An upload, any operations that do not write the file, and a download by the same user: if the server could create the file, both succeed and the local file has the uploaded bytes, for every length, whatever stale entries the store holds. |
| Users.RenameTrip | src/client/client.cpp:80-83 | A rename of a file to a free name, any operations that do not write the new name, and a download by the same user: the rename succeeds, the old name has no file after it, and the old bytes arrive under the new one. |
| Users.RenameClash | src/server/file_manager.cpp:243-249 | Anywhere in a run a rename onto another existing file is reported as failed and leaves the store, both files in it, as it was. |
| Users.DeleteTrip | src/client/client.cpp:75-78 | A deletion of a file succeeds, leaves no file, and a later download fails unless somebody wrote the name in between. |
| Users.ListShows | src/server/server.cpp:195-205 | Anywhere in a run the bytes that answer a list are the 200 frame around the text of exactly the names indexed for the user, with their sizes. |
| Users.UploadListed | src/server/file_manager.cpp:189-199 | After an upload and any operations that do not write the file, the list of its user holds the name with the number of bytes uploaded. |
| Users.RunKeeps | src/server/file_manager.cpp:189-266 | A file nobody writes keeps its content over any run. |
| Users.MeaningLocal | src/server/server.cpp:137-258 | An operation's answer and effect depend on its own user's files alone. |
| Users.MeaningsCommute | src/server/server.cpp:137-258 | Operations of two users give the same store and answers in either order. |
| Users.SwapUsers | src/server/server.cpp:137-258 | Two neighbouring operations of different users can be swapped anywhere in a serial run: every client hears the same, and the final store is the same, whatever stale entries it holds. |

## Left out

- HandleClient: on a connection with network errors it is stated that the store moves by atomic operations
  and the count is restored, not which answers went out; what each file operation does when the network
  fails is in the contracts of `FileManager` and in the concurrent store. The `closesocket` at the end is a
  step of `PoolMachine`.
- HandleRequest: as HandleClient.
- LockstepExactly: one operation at a time; concurrent sessions meet in the concurrent store, where
  the bytes on the wire are not modelled.
- RunRefines: what a client sends to a server that has closed is taken to be accepted and lost, so that it
  fails when it waits for the answer.
- Shutdown: the two broadcasts of the queue and the joins of the pool are steps of `PoolMachine`, not in the
  contracts of the class methods.
- WorkerLoop: the loop of one worker after shutdown; all workers before and during shutdown are in
  `PoolMachine`.
- GetFileSize: one look at the index; the two separately locked reads are in `AnnouncedLength`.
- SaveFile: the exception handler's reading off of the payload (src/server/file_manager.cpp:118-122) is
  not modelled, nor are exceptions from `fs::remove` after a broken upload and failing or short local
  writes; in the concurrent store an exception before the file is opened changes nothing and leaks the
  reference.
- WriteFile: as SaveFile.
- SaveOk: exceptions from `fs::remove` on the partial file are not among its steps; `Cleanup` has them, with
  what still holds and a run for what does not.
- ThrowOk: exceptions before an effect only, for the same reason.
- Calls of `list_files` that run beside other operations are single reads of the index, not operations of
  their own; those of `get_file_size` are two reads, in `AnnouncedLength`.
- Starvation inside `std::lock` and among readers and writers: progress is that everybody can finish,
  not that every schedule lets them.
- A worker waiting in `recv` for an idle client during shutdown: every task is taken to return or throw.
- The listening socket, `accept` errors, Winsock, the `running_` flag between two requests.
- Upload times, the order and the text of listings; the index is per directory and name, its size only.
- What the client prints; a list reaches it as the payload of a reply (`ListShows`), its result is the boolean.
- `remove_directory`, which nothing calls.
- The logger, the command line client, both `main` functions, signal handling, the load test.
- Memory exhaustion when a header announces a huge field.
