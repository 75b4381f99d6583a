# The SAC file system: a verified model

SAC is a small on-disk file system: a bitmap block allocator over 3000 blocks of 4096 bytes, a table of 32
one-block inodes, a two-level index of pointer blocks, and directories stored as 128-byte entries. This
project models its server library (`FileSystem/sac-fs/src`) and the wire format between its FUSE client
and its server, and proves that the disk is, for every run of operations, a tree of names to directories
and byte sequences.

## How it is organised

* **The disk.** `Bytes`, `Layout` (inode, header, entry and pointer-block layouts), `Inodes` (what raw blocks
  say), `Storage` (the same byte by byte), `Volume` (the block invariant: an owner map gives every referenced
  block one role, a leaked set holds the rest of the used ones), `Commits` and `Growth` (how a change of one
  inode leaves the others alone), `FreeSpace` (what reserving blocks costs), `DiskState` (the classes `Disk`, with
  its bit and block arrays, and `TNode`, an inode copy in memory).
* **The tree.** `Graph` (the inode graph and its tree invariant), `GraphOps` (the four changes made to it),
  `Namespace` (the abstraction to paths), `Paths` (path strings).
* **The code, file by file.** `Bitmap`, `NodeOps`, `Iterate`, `Directory`, `Search`, `Creation` (with file.c),
  `Removal`; sacio.c in `FileWrite`, `FileCommit`, `FileStore`, `DirStore`, `SacWrite`, `SacRead`,
  `SacTruncate`, `SacDirs`, `SacRemove`, `SacRmdir`, `SacRename`, `SacFiles`, `SacList`; disk.c in
  `Formatting`; `GapFilling` and `GapSteps` for the first loop of a write, as arithmetic and on the disk,
  `NameTails` for the copy of an inode's name.
* **The specification.** `Abstract` (domain, reply, next namespace and failure of each operation, in terms
  of paths, of the number, or descriptor, by which each item is known, and of whether a file has a block),
  `Contents` (operations on byte sequences), `Results` (the same in plain numbers, bytes and paths), `Laws`.
* **The theorems.** `Runs` (refinement of one operation, and of every run), `Accounting` (free space as a function
  of the namespace), `Invariants` (what the invariant says of raw blocks and bits).
* **The wire.** `Wire` (requests), `Replies` (directory listings and stat).

The invariant of a mounted disk is `DirStore.FsOk`: every block has at most one use and the bitmap says so,
every live inode has the shape its size calls for, and the live inodes form a tree. Each operation is a
method over the disk's arrays, proved against the abstract operation on `SacDirs.Ns`, the namespace of the
disk. Leaked blocks are a ghost set, and each operation states by how many it grows.

## Domain, and where the code falls short of its comments

A run is specified where the code is right, and `Abstract` states that domain in terms of the namespace alone.
Writes, truncates and renames are proved outside it too: `SacFiles.WriteNumber`, `SacFiles.Truncate` and
`SacRename.Rename` leave a file system if and only if they are in it. Each limit is exact or has a witness:

* A write that fills a block before the last one calls for a block it does not need and orphans another. The
  bytes are right; `SacWrite.Write` counts the leaked blocks, and `Contents.TailWriteExact` says exactly when
  there are none. In one case (an earlier block is filled, the last is not, and the pointer blocks are exactly
  full) a pointer stays set past the size, and the inode is malformed: `Contents.WriteKeepsShape`.
* A write past the end zero-fills the gap only up to an offset below 4096, or from block 1023 to exactly its
  end, although the comment at sacio.c:177 promises any offset: `GapFilling.GapExact` proves this condition
  exact, with pointer blocks as node.c:94-123 chooses them, and the domain is that condition.
* A shrinking truncate may undershoot or leave a block behind: `Contents.TruncExact` says exactly when.
* A growing truncate appends letters A, although the comment at sacio.c:529 says zeros. The model does as the
  code does, and `Contents.ZeroFillExact` says that the zeros are never there.
* A directory that loses its last entry forgets its two blocks without freeing them. This is counted exactly.
* Components before the last are directories as far as they exist. A rename needs an existing source, a free
  target (or the source itself) outside what is moved, and `GraphOps.RenameExact` says that no other rename keeps
  the tree. Made names have at most 70 bytes. The root is not removed or made. Writes need the inode number of
  a live file and reads that of a live inode; reads stay below 2^31.
* `exit` is a failure outcome, and `Runs.Exits` is its exact condition: an operation that must make something
  takes an inode, or more blocks, than there are free. How many are free is `Accounting.SpaceIs`. The scan at
  bitmap.c:31 has an explicit upper bound.
* A header keeps only the low 8 bits of its version when it is read back: `Layout.PackHeader`.

Blocks are read in place where the source maps them. A copied inode is the class `TNode`. Pointers are four
bytes (a 32-bit little-endian host). Splitting drops empty components. The overlapping copy at directory.c:75 is
read as a move. The bytes of a name in an entry after its NUL are arbitrary. The strcpy at utils.c:92, which
leaves such bytes of a copied inode arbitrary too, is read as a copy of all 71 bytes, and in a new inode they
are zero; `NameTails` takes that copy as it is and proves that these bytes do not matter. The name in the entry
counts; the one in the inode is not consulted. Clock values are parameters. `delete_parent_entry` writes two
inodes back to different blocks; the model writes the parent first.

## Model

| member | source | states |
|---|---|---|
| Runs.Run | FileSystem/sac-fs/src/sacio.c:13-556 | safety over all runs: any sequence of operations, each in its domain when its turn comes, started on any disk that keeps the invariant, is answered as the abstract tree of names answers and leaves the disk holding exactly the final namespace; the leaked set has grown by exactly the sum of what each operation leaks; a run completes if and only if no operation exits at its turn, and otherwise stops, with right answers so far, at the first that does; which one that is follows from the first namespace, the operations and the number of blocks leaked at the start |
| Runs.RunFromFormat | FileSystem/sac-fs/src/disk.c:12-42 | the same from a freshly formatted disk with arbitrary old contents: an empty root, nothing leaked; the operations alone decide where the run stops |
| Runs.Step | FileSystem/sac-fs/src/sacio.c:13-556 | each of mkdir, open, write, read, truncate, remove, rmdir, rename, readdir and stat commutes with its abstract operation: reply, whole namespace, number of leaked blocks, invariant kept (`Runs.NameOperationIs`, `Runs.FileOperationIs` and `Runs.QueryIs` say in plain numbers and bytes what these are); it fails if and only if Exits: every inode is taken and a new item is asked for, or it takes more blocks than are free |
| Runs.SampleRun | FileSystem/sac-fs/src/directory.c:78-81 | a concrete run in the domain, of which no operation exits: mkdir then rmdir of "/a" in an empty file system ends where it began, with two blocks leaked |
| Runs.NameOperationIs | FileSystem/sac-fs/src/sacio.c:13-150 | in a run: the reply to each of mkdir, open, remove, rmdir and rename as a number, with the condition for each number, and the whole next namespace that goes with it |
| Runs.FileOperationIs | FileSystem/sac-fs/src/sacio.c:152-313 | in a run: the reply to a write is the byte count and only the path of its number changes; the reply to a read is as many bytes as exist from the offset on, no more than asked for, each the byte of the file; a truncate answers 0 or -1 and changes one path |
| Runs.QueryIs | FileSystem/sac-fs/src/sacio.c:315-381 | in a run: the reply to readdir holds each name one step below the path once, and the reply to stat the kind 2 or 1, the number and the size; nothing changes |
| Runs.ExitsWhen | FileSystem/sac-fs/src/bitmap.c:29-38 | in a run: which operations can exit for want of space, and with how many free blocks |
| Runs.LeaksAre | FileSystem/sac-fs/src/directory.c:58-83 | in a run: how many blocks each operation leaks, in numbers of blocks of the file and entries of the directory |
| Runs.RunIs | FileSystem/sac-fs/src/sacio.c:13-556 | what a run means, one operation at a time: the namespace and the leak count before each operation, the domain and the reply in that namespace, and the room an operation finds |
| SacDirs.Mkdir | FileSystem/sac-fs/src/sacio.c:13-50 | 0 and one new directory exactly when the path is valid, its parent exists and the name is free; otherwise -1 and no change; nothing leaks; it fails if and only if the path is new and either every inode is taken or the parent is empty and fewer than two blocks are free |
| SacDirs.Open | FileSystem/sac-fs/src/sacio.c:121-150 | -1 exactly when the path is invalid or its parent is missing; otherwise the number of the inode the path then leads to, an empty file with the least free number being made only if there was nothing; it fails if and only if it has to make one, under the condition of mkdir |
| SacDirs.MakeOrFind | FileSystem/sac-fs/src/file.c:15-52 | idempotent create-or-find: an existing entry is returned and nothing changes; otherwise a free inode with its entry at the end of the directory |
| SacFiles.WriteFd | FileSystem/sac-fs/src/sacio.c:152-246 | on a live file, for every offset that GapFits: the bytes at its path become old[..offset] + buffer + old[offset+count..], zero-filled up to an offset past the end, and no other path changes; one block leaks for each earlier block filled; the file system survives if and only if WriteKeepsShape, and otherwise with one pointer cleared it is the same with one more block leaked; it fails if and only if it takes more blocks, WriteNeeds, than are free |
| SacFiles.WriteNumber | FileSystem/sac-fs/src/sacio.c:152-246 | the same by descriptor: whatever path the number has now, since it was opened, is the one that changes; the file system survives if and only if WriteDomain |
| SacFiles.ReadNumber | FileSystem/sac-fs/src/sacio.c:248-313 | reads by descriptor the bytes of the path the number has now: the count is 0 at or past the end and otherwise the smaller of the count asked for and the bytes that follow the offset; byte i is byte offset + i of the file; -1 exactly for a directory and for a file without a block |
| SacFiles.ReadFd | FileSystem/sac-fs/src/sacio.c:248-313 | the same at a path: length and every byte of the answer; -1 exactly for a file without a block, which is then empty; nothing changes |
| SacFiles.Truncate | FileSystem/sac-fs/src/sacio.c:493-556 | for every length: -1 exactly when the path names no file; otherwise 0, and the file is longer by bytes 65 or is a prefix of what it was, no other path changes, and at most one block leaks, exactly when TruncLeavesBlock says; the file system survives if and only if TruncDomain, and otherwise with one pointer cleared it is the same; it fails if and only if it lengthens by more blocks than are free |
| SacRemove.Remove | FileSystem/sac-fs/src/sacio.c:434-488 | 0 exactly when the path names a file, and then that one path is gone and no other; otherwise -1 and no change; two blocks leak if and only if it was alone in its directory |
| SacRemove.RemoveFile | FileSystem/sac-fs/src/sacio.c:454-487 | at the level of blocks: exactly the bits of the file's data blocks, of its pointer blocks and of its inode are cleared; the inode is dead; the graph has lost exactly that inode and its entry |
| SacRmdir.Rmdir | FileSystem/sac-fs/src/sacio.c:52-119 | -1 exactly for what is not a directory, -2 exactly for one with a path one step below it, both without a change, and otherwise 0 and that one path gone; two blocks leak if and only if it was alone in its directory |
| SacRename.Rename | FileSystem/sac-fs/src/sacio.c:383-432 | for any two paths whose ways are clear, also with a taken target, a target inside what moves, or no source: -1 exactly when a path is invalid or a parent missing; the file system survives if and only if RenameDomain, and then everything at or below the old path is at or below the new one, unrelated paths are as before, and two blocks leak if and only if the old directory lost its last entry; the blocks stay sound in any case, but for a rename without a source when every inode is in use; it fails if and only if fewer than two blocks are free and the target directory has none |
| SacRename.MoveEntry | FileSystem/sac-fs/src/sacio.c:400-421 | for any two directories and any names: the moved graph, or, when the old name has no entry, the root entered under the new name as its parent's child; a sound volume unless that is a 32nd entry, and a tree if and only if CanMove |
| SacList.Readdir | FileSystem/sac-fs/src/sacio.c:350-381 | nothing for what is not a directory; otherwise each name one step below the path once, and no other |
| SacList.ListCopy | FileSystem/sac-fs/src/sacio.c:364-377 | the array of size/128 names is filled exactly, in entry order |
| SacList.GetStat | FileSystem/sac-fs/src/sacio.c:315-348 | nothing exactly when the path leads nowhere; otherwise the kind and size of the item, which for a directory is 128 bytes for each name below it, the number of the inode and the two dates it stores |
| Laws.ViewIsTree | FileSystem/sac-fs/src/directory.c:17-37 | the namespace of every disk that keeps the invariant has a root directory and every other path inside a directory |
| Laws.RmdirUndoesMkdir | FileSystem/sac-fs/src/sacio.c:13-119 | rmdir after mkdir of a new path gives the namespace back |
| Laws.RemoveUndoesOpen | FileSystem/sac-fs/src/sacio.c:121-150 | remove after an open that created the file gives the namespace back |
| Laws.RenameUndoesRename | FileSystem/sac-fs/src/sacio.c:383-432 | renaming back is in the domain and gives the namespace back |
| Laws.RenameMoves | FileSystem/sac-fs/src/sacio.c:394-421 | after a rename every path through the old name resolves through the new one, paths through the old name are gone, unrelated paths are as before |
| Laws.WriteThenRead | FileSystem/sac-fs/src/sacio.c:152-313 | a read of the range just written answers the buffer and its length, and no other path changes |
| Laws.OpenNumbers | FileSystem/sac-fs/src/sacio.c:121-150 | the number open gives leads to the path opened, and no other path has it |
| Laws.DescriptorFollows | FileSystem/sac-fs/src/sacio.c:383-432 | after a rename a descriptor opened before leads to the new path of the same file |
| Laws.ItemNamed | FileSystem/sac-fs/src/directory.c:130-132 | every path of the namespace of a tree of inodes has a valid path string that splits into it and can be looked up, and that can also be opened if it is not the root |
| Results.MkdirTwice | FileSystem/sac-fs/src/sacio.c:33-37 | a mkdir of a new path answers 0, and a second one of the same path -1 |
| Results.RmdirOfParent | FileSystem/sac-fs/src/sacio.c:72-76 | after a mkdir, rmdir of the parent answers -2 |
| Results.MkdirAnswer | FileSystem/sac-fs/src/sacio.c:13-50 | 0 or -1; 0 exactly when the path is valid, its parent exists and the name is free, and then there is one new directory with the least free number; with -1 nothing changes |
| Results.OpenAnswer | FileSystem/sac-fs/src/sacio.c:121-150 | -1 exactly when the path is invalid or its parent missing, and then nothing changes; otherwise the number of what is there, or of the empty file then made |
| Results.RemoveAnswer | FileSystem/sac-fs/src/sacio.c:434-488 | 0 or -1; 0 exactly when the path names a file, and then that path is gone; with -1 nothing changes |
| Results.RmdirAnswer | FileSystem/sac-fs/src/sacio.c:52-119 | -1 exactly when the path names no directory, -2 exactly when it names one with something one step below it, otherwise 0, and then that path is gone; otherwise nothing changes |
| Results.RenameAnswer | FileSystem/sac-fs/src/sacio.c:383-432 | 0 exactly when both paths are valid and both parents exist; every path below the new name is then there exactly when the same path below the old name was, with the same item, and every other path is as before; with -1 nothing changes |
| Results.WriteAnswer | FileSystem/sac-fs/src/sacio.c:152-246 | the path of the number has the bytes before the offset, zeros in a gap, the buffer, and the old bytes past it; nothing else changes |
| Results.ReadAnswer | FileSystem/sac-fs/src/sacio.c:248-313 | -1 for a directory and for a file without a block; otherwise 0 at or past the end, the count asked for if that many bytes follow the offset, and if not as many as follow; the bytes are those of the file |
| Results.TruncAnswer | FileSystem/sac-fs/src/sacio.c:493-556 | 0 exactly when the path names a file; a longer length appends bytes 65, a shorter one keeps a prefix of the length given by the block arithmetic, a negative one counts as 0 |
| Results.CreateDomainIs | FileSystem/sac-fs/src/sacio.c:13-44 | the paths that mkdir and open are specified for: if valid, not "/", with a last name of at most 70 bytes and no file on the way |
| Results.PathDomainIs | FileSystem/sac-fs/src/directory.c:17-37 | the paths that are looked up: if valid, with no file on the way |
| Results.RenameDomainIs | FileSystem/sac-fs/src/sacio.c:394-421 | the renames of the domain, in terms of paths of the namespace |
| Results.WriteDomainIs | FileSystem/sac-fs/src/sacio.c:176-202 | the writes of the domain, in numbers: which gaps, and which overwrites of full blocks |
| Results.ReadDomainIs | FileSystem/sac-fs/src/sacio.c:268-272 | the reads of the domain: the number of any item, below 2^31 |
| Results.TruncDomainIs | FileSystem/sac-fs/src/sacio.c:535-555 | the truncates of the domain, in numbers: any 32-bit length that does not leave a block alone in its pointer block |
| Results.CreateExitsWhen | FileSystem/sac-fs/src/file.c:15-52 | mkdir and open exit exactly when something new is to be made, and every one of the 32 numbers is taken or the parent is empty and two blocks are not free |
| Results.RenameExitsWhen | FileSystem/sac-fs/src/sacio.c:411-414 | rename exits exactly when the new entry is the only one of its directory and two blocks are not free |
| Results.TruncExitsWhen | FileSystem/sac-fs/src/sacio.c:524-533 | truncate exits exactly when it lengthens the file by more blocks, data and pointer, than are free |
| Results.NewNumberLeast | FileSystem/sac-fs/src/bitmap.c:11-13 | a new item gets the least number of 0 to 31 that no item has, and 32 stands for none |
| Accounting.SpaceIs | FileSystem/sac-fs/src/bitmap.c:10-38 | the free blocks, the leaked ones and those that the items of the namespace take are 2966: what is free follows from the namespace and from what has leaked |
| Accounting.FreshRoom | FileSystem/sac-fs/src/disk.c:12-42 | an empty file system with nothing leaked has all 2966 blocks free |
| Accounting.ItemSpaceIs | FileSystem/sac-fs/src/node.c:85-127 | the blocks of an item: two for a directory that is not empty, and for a file that has a block one per 4096 bytes begun, one more at the end of a full block, and one pointer block per 1024 |
| Accounting.OwnersCounted | FileSystem/sac-fs/src/node.c:85-127 | the owned blocks are those of the inodes, each counted once |
| Invariants.Unaliased | FileSystem/sac-fs/src/bitmap.c:10-38 | no block has two uses: over all live inodes, the pointer blocks and the data blocks 0..size/4096 are pairwise distinct, lie in the data region and are marked used |
| Invariants.Conservation | FileSystem/sac-fs/src/directory.c:58-83 | a block of the data region is marked used exactly when a live inode calls for it or it is in the leaked set, never both |
| Invariants.ExactShape | FileSystem/sac-fs/src/node.c:85-127 | pointer i is set exactly for the first (size/4096)/1024+1 positions if pointer 0 is set; every block count is at most 2966 and at most 3 pointers are used, so size conversions are lossless |
| Invariants.DirectoryFits | FileSystem/sac-fs/src/directory.c:40-56 | a directory of n entries has size 128n, fewer entries than live inodes, at most 31: it never outgrows one block |
| Volume.SizeBound | FileSystem/sac-fs/src/disk.h:18-27 | pigeonhole: an inode's data and pointer blocks together are at most 2966 |
| Creation.RoomForEntry | FileSystem/sac-fs/src/directory.c:194-213 | while an inode is free every directory has at most 30 entries |
| SacRename.RoomToMove | FileSystem/sac-fs/src/sacio.c:411-414 | after the old entry is gone the target of a rename has at most 30 entries |
| Graph.PathUnique | FileSystem/sac-fs/src/directory.c:17-37 | each inode has one path |
| Graph.ParentsReachRoot | FileSystem/sac-fs/src/directory.c:168-179 | following parent_block from any inode reaches the root in as many steps as its path has names |
| Graph.OneEntryEach | FileSystem/sac-fs/src/file.c:15-52 | entries and live non-root inodes are in bijection; each entry is in the directory its inode's parent_block names |
| Graph.EntriesBounded | FileSystem/sac-fs/src/disk.h:18-29 | the counting argument: entries of a directory, and any other live inodes not listed in it, are no more than the live inodes |
| GraphOps.AddChildTree | FileSystem/sac-fs/src/file.c:31-51 | a new inode with its entry keeps the tree |
| GraphOps.AddChildResolve | FileSystem/sac-fs/src/sacio.c:33-41 | and every path leads where it did, but for the new one |
| GraphOps.RemoveChildTree | FileSystem/sac-fs/src/sacio.c:472-485 | a leaf that goes with its entry keeps the tree |
| GraphOps.RemoveChildResolve | FileSystem/sac-fs/src/sacio.c:472-485 | and every path leads where it did, but for the removed one |
| GraphOps.MoveTree | FileSystem/sac-fs/src/sacio.c:402-421 | an entry moved between directories with its parent field keeps the tree, so a decreasing rank still exists |
| GraphOps.MoveResolve | FileSystem/sac-fs/src/sacio.c:402-421 | and every path through the new name leads where the old one led |
| GraphOps.MoveExact | FileSystem/sac-fs/src/sacio.c:402-421 | for any two directories, entry and new name, the move keeps the tree if and only if the new name is free (or is the old one) and the target is not inside what moves |
| GraphOps.RenameExact | FileSystem/sac-fs/src/sacio.c:402-421 | and without an old entry a rename never keeps the tree, since the root is listed |
| GraphOps.SetDataTree | FileSystem/sac-fs/src/sacio.c:206-242 | changing a file's bytes keeps the tree |
| GraphOps.AddThenRemove | FileSystem/sac-fs/src/directory.c:40-83 | adding an entry of a fresh name and deleting it is the identity on the entry list |
| GraphOps.LookupRemove | FileSystem/sac-fs/src/directory.c:58-83 | with unique names, a deleted name is not found and every other name is found as before |
| Namespace.ViewAdd | FileSystem/sac-fs/src/sacio.c:33-41 | in the namespace a new inode with its entry is one new path |
| Namespace.ViewRemove | FileSystem/sac-fs/src/sacio.c:472-485 | a removed leaf is one path less |
| Namespace.ViewMove | FileSystem/sac-fs/src/sacio.c:402-421 | a moved entry renames everything at or below it |
| Namespace.ViewSetData | FileSystem/sac-fs/src/sacio.c:206-242 | changed bytes change one path only |
| Namespace.ViewNames | FileSystem/sac-fs/src/sacio.c:364-377 | the entries of a directory are the names one step below its path |
| Search.SearchPath | FileSystem/sac-fs/src/directory.c:17-37 | equals the abstract walk from the root, and changes nothing |
| Paths.LastName | FileSystem/sac-fs/src/directory.c:298-309 | a valid path other than "/" ends in its last name; with or without the slash before it, the rest splits into the other names |
| Paths.SplitConcat | FileSystem/sac-fs/src/utils.c:219-240 | splitting at a slash splits the list of names |
| Paths.SplitNames | FileSystem/sac-fs/src/directory.c:19 | components are not empty and hold no slash and no NUL |
| Paths.ValidParts | FileSystem/sac-fs/src/directory.c:130-132 | a path is valid if and only if it is "/" or ends in a slash and a word, with nothing or something that starts with a slash before it |
| Paths.PathString | FileSystem/sac-fs/src/directory.c:130-132 | every list of non-empty names without slash and NUL is what some valid path string splits into |
| Paths.SplitWord | FileSystem/sac-fs/src/directory.c:19 | a word without a slash is one component |
| SacDirs.FindParent | FileSystem/sac-fs/src/sacio.c:18-25 | the parent path plus the last name rebuilds the path, and the inode found is where the parent path leads |
| SacDirs.FindFolder | FileSystem/sac-fs/src/utils.c:219-232 | the same for the path without its last slash |
| SacDirs.ChildIsPath | FileSystem/sac-fs/src/directory.c:17-37 | lookup(path) = entry(lookup(parent), name) |
| Iterate.IterateBytes | FileSystem/sac-fs/src/directory.c:279-289 | visits the entries of one data block in order up to the first accepted one or the end of the directory, and reports its byte |
| Iterate.IterateBlocks | FileSystem/sac-fs/src/directory.c:263-277 | the same over the data blocks of one pointer block |
| Iterate.IteratePointers | FileSystem/sac-fs/src/directory.c:218-237 | the three nested loops are a first-match search over the size/128 entries in order; a callback that accepts nothing sees exactly size/128 entries |
| Directory.GetEntry | FileSystem/sac-fs/src/directory.c:100-106 | the first entry of the name, by its inode number |
| Directory.ListEntries | FileSystem/sac-fs/src/sacio.c:368-375 | all entries in order |
| Directory.ReadNextDataBlock | FileSystem/sac-fs/src/directory.c:194-213 | the only data block, made with its pointer block for the first entry |
| Directory.AddDirectoryEntry | FileSystem/sac-fs/src/directory.c:40-56 | the entry list grows by one at its end; nothing leaks |
| Directory.DeleteDirectoryEntry | FileSystem/sac-fs/src/directory.c:58-83 | the entry list loses its first match, order kept; the leaked set grows by exactly two when it was the only entry and otherwise not at all |
| Removal.DeleteEntryAndUnmap | FileSystem/sac-fs/src/sacio.c:408-409 | the same on the volume: only that directory changes |
| Removal.DeleteAllDirectoryEntries | FileSystem/sac-fs/src/directory.c:85-96 | clears exactly the bits of the blocks that the first pointers, up to the first that is clear, name; for a directory without blocks, none |
| SacRmdir.DeleteParentEntry | FileSystem/sac-fs/src/utils.c:202-218 | the entry goes from the directory the inode's parent_block names |
| Creation.MakeNode | FileSystem/sac-fs/src/file.c:31-47 | the first free inode becomes an empty one of the given state, name and parent, with both dates the clock value and no pointer; every other block is unchanged |
| DirStore.NewNodeIs | FileSystem/sac-fs/src/file.c:53-58 | a new inode: the name read back as a string, size 0, both dates the clock value, all 1000 pointers clear |
| Creation.AddEntryAndUnmap | FileSystem/sac-fs/src/directory.c:177-178 | a directory gets one entry and is written back; the rest of the graph is unchanged |
| NodeOps.CreatePointersBlock | FileSystem/sac-fs/src/node.c:55-62 | a fresh block of the data region is reserved and named by the inode |
| NodeOps.CreateDataBlock | FileSystem/sac-fs/src/node.c:66-78 | a fresh block of the data region is reserved and named by one slot of a pointer block |
| NodeOps.AddDataBlock | FileSystem/sac-fs/src/node.c:85-127 | for any inode with a pointer to spare, also one with positions that have no block: a free block is reserved and stored at the position the number of pointers set and the size give, in a new pointer block if that is past the last; no other block or bit changes; it fails if and only if fewer blocks are free than the one or two it takes |
| NodeOps.GrowNode | FileSystem/sac-fs/src/node.c:85-127 | on an inode linked to its blocks: the block at that position is new, across the 1024-slot boundary too; if the position was taken the block there is leaked and nothing else is; no other inode's blocks change |
| NodeOps.BlockNumber | FileSystem/sac-fs/src/node.c:207-222 | the number in the slot of the k-th data block, through the two-level index |
| NodeOps.DeleteLastDataBlock | FileSystem/sac-fs/src/node.c:189-206 | frees the last data block, and its pointer block when it was alone there; the size falls to the start of the block before; nothing leaks |
| NodeOps.DeleteNode | FileSystem/sac-fs/src/node.c:26-43 | name and state cleared, the other fields and blocks unchanged, the bit freed |
| Growth.GrowAt | FileSystem/sac-fs/src/node.c:66-78 | naming a reserved block in the slot of position k keeps all blocks unaliased and changes no data byte |
| Growth.GrowBoth | FileSystem/sac-fs/src/node.c:113-125 | the same with a new pointer block |
| Volume.UnlinkSound | FileSystem/sac-fs/src/node.c:198-204 | dropping the last data block leaves exactly the dropped blocks used and unreferenced |
| Volume.ForgetSound | FileSystem/sac-fs/src/directory.c:78-81 | forgetting an inode leaves exactly its blocks used and unreferenced |
| Bitmap.GetFreeBlock | FileSystem/sac-fs/src/bitmap.c:29-38 | first fit: the least free block of the region is reserved; fails exactly when there is none |
| Bitmap.GetFreeNodeBlock | FileSystem/sac-fs/src/bitmap.c:11-13 | first fit over the inode table |
| Bitmap.GetFreeDataBlock | FileSystem/sac-fs/src/bitmap.c:16-18 | first fit over the data region; the block is used and not yet referenced |
| Bitmap.FreeBlock | FileSystem/sac-fs/src/bitmap.c:25-27 | clears one bit |
| SacWrite.Write | FileSystem/sac-fs/src/sacio.c:152-246 | the bytes are right for every offset that GapFits, which is every gap the code fills right; no other inode changes; the leaked set grows by the number of earlier blocks filled; the inode stays well formed if and only if WriteKeepsShape |
| FileWrite.WriteLoop | FileSystem/sac-fs/src/sacio.c:204-241 | the second loop, although it grows the inode before it updates the size; it takes exactly LoopNeeds free blocks, and fails if and only if there are fewer |
| FileWrite.GapFill | FileSystem/sac-fs/src/sacio.c:176-202 | the first loop, for every gap that GapExact says it fills right: zeros up to the offset, exactly the blocks up to it, nothing leaked; it takes two blocks if the offset is past the first block, and fails if and only if they are not free |
| FileWrite.FillGapStep | FileSystem/sac-fs/src/sacio.c:179-200 | one iteration of the first loop on an inode that has the blocks its size calls for, for any gap: it is one step of the loop's arithmetic, in the size, in the pointers set, in the positions that have a block, each its own, and in the bytes made zero; slots of positions without a block keep what they held |
| GapSteps.SkippedOnDisk | FileSystem/sac-fs/src/sacio.c:195-199 | such an iteration, when it fills the block but not the pointer block, leaves the position that comes next without a block and gives one to the position after it |
| GapFilling.GapExact | FileSystem/sac-fs/src/sacio.c:176-202 | for every size and offset past it, filling the gap leaves the size at the offset, exactly the blocks up to it and exactly the bytes of the gap zero if and only if GapFits: the offset is below 4096, or the gap starts in block 1023 and ends with it |
| GapFilling.GapExtends | FileSystem/sac-fs/src/sacio.c:176-202 | size and blocks alone come out right if and only if the offset is below 4096, or the gap starts in the last block of a full pointer block and ends with it |
| GapFilling.GapWitnesses | FileSystem/sac-fs/src/sacio.c:176-202 | concrete gaps: one block in an empty file, which leaves the block for the write missing; one to the end of a full first pointer block, which is right; one to the end of a full second, whose zeros are misplaced |
| Contents.TailWriteExact | FileSystem/sac-fs/src/sacio.c:227-234 | no earlier block is filled, so nothing leaks, if and only if the write starts in the last block or ends in the block it starts in; then the shape is kept |
| Contents.WriteNeedsNone | FileSystem/sac-fs/src/sacio.c:166-234 | a write takes no free block if and only if the file has one, the gap ends in the first block and no block is filled |
| Contents.WriteNeedsIs | FileSystem/sac-fs/src/sacio.c:164-241 | how many blocks a write takes, in numbers: for a file without a block, for a gap past the first block, for each block filled, and for the pointer blocks of 1024 |
| Contents.WriteWitnesses | FileSystem/sac-fs/src/sacio.c:227-234 | concrete writes that leak a block, and that leave an inode malformed |
| Contents.ReadAfterWrite | FileSystem/sac-fs/src/sacio.c:204-313 | reading what was written gives it back |
| Contents.ReadsConcatenate | FileSystem/sac-fs/src/sacio.c:285-312 | two consecutive reads are one larger read |
| Contents.WritesConcatenate | FileSystem/sac-fs/src/sacio.c:204-241 | two consecutive writes are one larger write |
| Contents.OverwrittenBytes | FileSystem/sac-fs/src/sacio.c:152-246 | length and every byte of a file after a write |
| Contents.SliceBytes | FileSystem/sac-fs/src/sacio.c:264-312 | length and every byte of what a read returns: it ends where the file ends |
| SacRead.Read | FileSystem/sac-fs/src/sacio.c:248-313 | length and every byte of the answer: 0 at or past the end, and never more bytes than follow the offset; -1 exactly for what is not a file or has no block |
| SacTruncate.Shrink | FileSystem/sac-fs/src/sacio.c:535-555 | terminates for every length; the file keeps a prefix of the size TruncSize gives; one block is left behind if and only if TruncLeavesBlock; no other inode changes; the inode stays well formed if and only if TruncKeepsShape, and otherwise one pointer too many is all that is wrong: with it cleared the invariant holds, and both blocks are leaked |
| Contents.TruncExact | FileSystem/sac-fs/src/sacio.c:537-553 | the final size is in (L-4096, L]; it is L if and only if L is a whole number of blocks, or less than a block is cut, or the last blocks are two or more apart; it is L with nothing left behind if and only if L is a whole number of blocks or lies in the last block |
| Contents.TruncWitnesses | FileSystem/sac-fs/src/sacio.c:537-553 | concrete lengths for which the size undershoots, a block is left behind, or an inode is left malformed |
| Contents.ZeroFillExact | FileSystem/sac-fs/src/sacio.c:524-533 | the zeros that truncate promises for a longer length are what it appends if and only if there is nothing to append |
| Contents.LengthenedBytes | FileSystem/sac-fs/src/sacio.c:524-533 | a longer length keeps all bytes and every appended one is 65 |
| Contents.ShortenedBytes | FileSystem/sac-fs/src/sacio.c:535-555 | a shorter length keeps a prefix: of that length, or of the start of its block when a block or more is cut and the last blocks are neighbours |
| SacFiles.Lengthen | FileSystem/sac-fs/src/sacio.c:524-533 | a longer length keeps all bytes, appends bytes 65 and leaks nothing |
| Removal.FreeFileBlocks | FileSystem/sac-fs/src/sacio.c:454-469 | the nested loops, with a counter taken from the size alone, clear exactly the bits of the file's size/4096+1 data blocks and of its pointer blocks |
| Removal.ForgetAndFree | FileSystem/sac-fs/src/sacio.c:454-487 | once they are cleared the volume without that inode is sound and nothing leaks |
| Commits.Commit | FileSystem/sac-fs/src/node.c:47-51 | writing one inode back changes the table and the graph at that inode only |
| Commits.Drop | FileSystem/sac-fs/src/sacio.c:482-485 | an inode whose bit is clear no longer counts; all others are unchanged |
| SacRename.SetParent | FileSystem/sac-fs/src/sacio.c:416-421 | the moved inode's parent field changes and nothing else |
| Layout.PackNode | FileSystem/sac-fs/src/utils.c:146-161 | the cursor copies produce the inode layout, whatever the block held before |
| Layout.NodeBytes | FileSystem/sac-fs/src/utils.c:146-161 | where each field lies: state at 0, name at 1, parent at 72, size at 76, dates at 80 and 88, pointer i at 96 + 4i, each least significant byte first |
| Storage.NodeFields | FileSystem/sac-fs/src/utils.c:163-186 | the fields read from the bytes of a block |
| Storage.NodeOnDisk | FileSystem/sac-fs/src/bitmap.c:20-23 | an inode is in use if and only if bit n + 2 is set, and byte 0 of block n + 2 says whether it is a file or a directory |
| Storage.BlockOnDisk | FileSystem/sac-fs/src/node.c:207-222 | the k-th data block is named by word k % 1024 of the block that pointer k / 1024 names, and both are blocks 34 to 2999 |
| Storage.FileOnDisk | FileSystem/sac-fs/src/sacio.c:285-308 | byte i of a file is byte i % 4096 of its data block i / 4096, and its length is the word at byte 76 |
| Storage.DirOnDisk | FileSystem/sac-fs/src/directory.c:218-237 | a directory has size / 128 entries, at most 31 |
| Storage.EntryOnDisk | FileSystem/sac-fs/src/directory.c:279-289 | and entry e is at byte 128e of its one data block |
| Storage.EntryFields | FileSystem/sac-fs/src/directory.c:291-296 | the fields of entry k of a block: four bytes of number at byte 128k, then the name up to its NUL |
| NameTails.NodeCopyRoundTrip | FileSystem/sac-fs/src/utils.c:88-99 | with the name copied by strcpy into memory of any content, every field and the name as a string are read back |
| NameTails.BlockCopyRoundTrip | FileSystem/sac-fs/src/utils.c:146-186 | and writing back an inode just read changes no byte but those after the name's NUL |
| NameTails.TailsDoNotMatter | FileSystem/sac-fs/src/utils.c:163-186 | volumes that differ only in those bytes of the inode table have the same extents and the same graph, hence the same namespace, and the second keeps the invariant if the first does |
| NameTails.WriteBackKeeps | FileSystem/sac-fs/src/node.c:47-51 | so an inode read and written back unchanged leaves extents, graph and invariant as they were |
| NameTails.ChangedWriteBack | FileSystem/sac-fs/src/node.c:47-51 | and one whose fields were changed in between leaves the extents, graph and invariant that a copy of all 71 bytes would leave |
| Layout.NodeNameRoundTrip | FileSystem/sac-fs/src/utils.c:88-99 | a NUL-free name of at most 70 bytes is read back |
| Layout.PackHeader | FileSystem/sac-fs/src/utils.c:79-126 | the header read back is the one written with its version reduced to 8 bits, so the one written if and only if its version is below 256; the rest of the block is unchanged |
| Layout.PutEntryRoundTrip | FileSystem/sac-fs/src/directory.c:40-56 | a stored entry is read back, and its neighbours are unchanged |
| Layout.EntryBytes | FileSystem/sac-fs/src/directory.c:40-56 | the bytes of a stored entry: number, name, NUL, at 128 times its place; the rest of the block is unchanged |
| Layout.SlotBytes | FileSystem/sac-fs/src/node.c:66-78 | the bytes of a slot of a pointer block; the rest of the block is unchanged |
| Layout.DropEntryAt | FileSystem/sac-fs/src/directory.c:72-75 | the left shift moves later entries down one place and keeps the earlier ones |
| Formatting.FormatAndMount | FileSystem/sac-fs/src/disk.c:12-42 | a formatted and mounted disk keeps the whole invariant, with only a root directory and nothing leaked |
| Formatting.FormatDisk | FileSystem/sac-fs/src/disk.c:12-42 | the bytes of a formatted disk: SAC and the words 1, 1, 375 in block 0; 224 and then zeros in block 1; in block 2 the directory "/" with parent and size 0, both dates the clock value, and no pointer |
| Formatting.PackedByte | FileSystem/sac-fs/src/utils.c:128-134 | the first of eight bits weighs 128 and the last 1 |
| Formatting.CreateDefaultBitmap | FileSystem/sac-fs/src/utils.c:65-77 | exactly the header, the bitmap's block and the root's block are in use |
| Formatting.BitsRoundTrip | FileSystem/sac-fs/src/utils.c:128-144 | the bitmap loaded from its block is the one saved, first bit highest |
| Formatting.BitmapToBlock | FileSystem/sac-fs/src/utils.c:128-134 | the bitmap's bytes at the start of the block, the rest unchanged |
| Wire.RequestRoundTrip | FileSystem/mtserver/src/serialization.c:40-305 | for every request whose arguments fit their types the server recovers every argument |
| Wire.Serialize | FileSystem/mtserver/src/serialization.c:40-136 | the serializers, as buffers filled by copies at computed offsets, produce packages from which the request is recovered |
| Wire.SerializeString | FileSystem/mtserver/src/serialization.c:292-296 | length with the NUL, then the string with the NUL, and nothing else of the buffer changes |
| Wire.SerializePath | FileSystem/mtserver/src/serialization.c:298-305 | the common package of remove, rmdir, stat and readdir |
| Wire.SerializeWrite | FileSystem/mtserver/src/serialization.c:61-74 | the write package |
| Wire.StringArgAt | FileSystem/mtserver/src/serialization.c:227-237 | a serialized string, wherever it is in a package, is read back |
| Wire.SignedRoundTrip | FileSystem/mtserver/src/serialization.c:128-136 | a signed argument survives two's complement |
| Wire.RequestBytes | FileSystem/mtserver/src/serialization.c:40-136 | every package, byte by byte, with its identifier from 1 to 11 |
| Wire.InRangeIs | FileSystem/mtserver/src/serialization.h:34-38 | the requests that come through, in numbers |
| Replies.PackNames | FileSystem/mtserver/src/fs_sac.c:76-105 | the growing buffer holds the serialized names end to end |
| Replies.UnpackNames | FileSystem/sac-cli/src/fuse.c:201-209 | the client loop recovers exactly the list that was packed and consumes all bytes |
| Replies.SendNames | FileSystem/mtserver/src/fs_sac.c:86-102 | from the server's list to the client's: the same names in the same order |
| Replies.NamesBytes | FileSystem/mtserver/src/fs_sac.c:86-102 | the listing, byte by byte: each name with its length and its NUL, after the ones before it |
| Replies.PackStat | FileSystem/mtserver/src/fs_sac.c:48-74 | the 24 bytes, field by field, from which the client recovers each |
| Replies.StatRoundTrip | FileSystem/sac-cli/src/fuse.c:351-378 | the fields of the five copies do not overlap and are recovered |

## Left out

- SacFiles.WriteFd: only for offsets that GapFits. For the others `GapFilling.GapExact` says that the gap is wrong; on the disk the first iteration is proved (`FileWrite.FillGapStep`), and the next ones, which may read a slot that was never assigned, are not modelled.
- SacFiles.WriteNumber: the same offsets. No run continues from a malformed inode.
- SacWrite.Write: the same offsets.
- FileWrite.GapFill: the same offsets.
- SacRename.Rename: no run continues from a graph that is not a tree, and the directory that a rename without a source overfills is not described further.
- SacDirs.Open: the state after `exit` is not described, since the program ends; what is stated is exactly when that happens.
- Wire.RequestRoundTrip: a stat request carries its path only; the mode that the server also copies lies past the package. Packages shorter than their own lengths are not decoded.
- Mapping of blocks with mmap, msync and file opening, and memory allocation failures: blocks are an array.
- The recursive collection in sac_rmdir: a non-empty directory is refused first, so its list holds one directory.
- sac_close, which keeps no state, and delete_dir_node_and_remove_entry, which its author marks as not done.
- Permissions and open modes, which the file system ignores; timestamps are stored words.
- Bitmap persistence after mounting, which the server loop does not reach, and bitmaps of more than one block.
- The reply of a read over the wire, sockets, the handshake, server threads, logging and configuration.
- The file operations over the host kernel (fs_local.c) and the callbacks of fuse.c that only forward a call.
