/** sac_write, sac_read and sac_truncate as operations on the namespace. */
module SacFiles {
  import opened Bytes
  import opened Layout
  import opened Volume
  import opened Graph
  import opened GraphOps
  import opened Namespace
  import opened Abstract
  import opened Results
  import opened Paths
  import opened Inodes
  import opened Commits
  import opened DiskState
  import opened FreeSpace
  import opened Contents
  import opened GapFilling
  import opened FileStore
  import opened DirStore
  import opened Search
  import opened SacDirs
  import opened SacRemove
  import opened SacWrite
  import opened SacRead
  import opened SacTruncate

  // ---------------------------------------------------------------- a file in the abstraction

  /** Path p leads to file fd, whose bytes are data. */
  ghost predicate FileAt(v: Vol, p: Path, fd: nat, data: seq<byte>)
  {
    && Tree(GraphOf(v)) && Resolve(GraphOf(v), p) == Some(fd)
    && IsFile(v, fd) && fd < NODE_TABLE_BLOCKS && FileData(v, fd) == data && |data| == NodeAt(v.blk, fd).size
    && fd in GraphOf(v) && GraphOf(v)[fd].body == File(data, HasBlock(v.blk, fd))
    && p in View(GraphOf(v)) && View(GraphOf(v))[p] == AFile(fd, data, HasBlock(v.blk, fd))
  }

  /** Every file's inode number is the end of a path, and the abstraction has its bytes there. */
  lemma FileIsAt(v: Vol, p: Path, fd: nat)
    requires Tree(GraphOf(v)) && Resolve(GraphOf(v), p) == Some(fd) && IsFile(v, fd)
    ensures FileAt(v, p, fd, FileData(v, fd))
  {
    hide Tree, GraphOf, View, Resolve, NodeAt, FileBytes, ExtentOf;
    FileObj(v, fd);
    ViewAt(GraphOf(v), p);
    FileInTable(v, fd);
  }

  lemma FileInTable(v: Vol, fd: nat)
    requires IsFile(v, fd)
    ensures fd < NODE_TABLE_BLOCKS && |FileData(v, fd)| == NodeAt(v.blk, fd).size
  {
    hide NodeAt, ExtentOf;
  }

  /** A path that names a file in the abstraction leads to one. */
  lemma NamedFile(v: Vol, own: Owners, lk: set<nat>, path: PathStr, fd: nat)
    requires VolOk(v, own, lk) && Tree(GraphOf(v)) && NamesFile(View(GraphOf(v)), path)
    requires Resolve(GraphOf(v), Split(path)) == Some(fd)
    ensures FileAt(v, Split(path), fd, View(GraphOf(v))[Split(path)].data)
  {
    hide VolOk, Tree, GraphOf, View, Resolve, NodeAt, FileAt, Split;
    FoundItem(v, own, lk, path, fd);
    FileIsAt(v, Split(path), fd);
    FileAtView(v, Split(path), fd, FileData(v, fd));
  }

  lemma FileAtView(v: Vol, p: Path, fd: nat, data: seq<byte>)
    requires FileAt(v, p, fd, data)
    ensures p in View(GraphOf(v)) && View(GraphOf(v))[p] == AFile(fd, data, HasBlock(v.blk, fd))
    ensures IsFile(v, fd) && fd < NODE_TABLE_BLOCKS && FileData(v, fd) == data && |data| == NodeAt(v.blk, fd).size
  {
    hide Tree, GraphOf, View, Resolve, FileData;
  }

  /** What changing one file's bytes makes of the abstraction. */
  lemma BytesChanged(v: Vol, p: Path, fd: nat, data: seq<byte>, g': Graph, data': seq<byte>,
                     blocks: bool)
    requires FileAt(v, p, fd, data) && g' == SetData(GraphOf(v), fd, data', blocks)
    ensures Tree(g') && View(g') == View(GraphOf(v))[p := AFile(fd, data', blocks)]
  {
    hide Tree, GraphOf, View, Resolve, NodeAt, FileData;
    SetDataTree(GraphOf(v), fd, data', blocks);
    ViewSetData(GraphOf(v), fd, data', blocks, p);
  }

  /** What an operation on one file's bytes makes of the disk. The file system survives exactly when keeps
      holds; otherwise a pointer too many in the file's inode is all that is wrong, and with it cleared the file
      system is the same. */
  ghost predicate BytesDone(d: Disk, ns: NS, lk: set<nat>, p: Path, fd: nat, data: seq<byte>, blocks: bool,
                            leaks: nat, keeps: bool)
    reads d, d.bits, d.blocks
  {
    && d.Sizes() && (FsOk(d) <==> keeps)
    && (keeps ==> Ns(d) == ns[p := AFile(fd, data, blocks)] && |d.lk| == |lk| + leaks)
    && (!keeps ==>
          && VolOk(Mended(d.Vol(), fd), d.own, d.lk) && Tree(GraphOf(Mended(d.Vol(), fd)))
          && View(GraphOf(Mended(d.Vol(), fd))) == ns[p := AFile(fd, data, blocks)] && |d.lk| == |lk| + leaks + 1)
    && lk <= d.lk
  }

  lemma BytesDoneHas(d: Disk, ns: NS, lk: set<nat>, p: Path, fd: nat, data: seq<byte>, blocks: bool, leaks: nat)
    requires BytesDone(d, ns, lk, p, fd, data, blocks, leaks, true)
    ensures FsOk(d) && Ns(d) == ns[p := AFile(fd, data, blocks)] && lk <= d.lk && |d.lk| == |lk| + leaks
  {
    hide FsOk, Ns;
  }

  lemma BytesDoneIff(d: Disk, ns: NS, lk: set<nat>, p: Path, fd: nat, data: seq<byte>, blocks: bool, leaks: nat,
                     keeps: bool)
    requires BytesDone(d, ns, lk, p, fd, data, blocks, leaks, keeps)
    ensures FsOk(d) <==> keeps
  {
    hide FsOk, Ns, VolOk, Tree, GraphOf, View, Mended;
  }

  /** From what an operation does to one file to what it does to the file system. */
  lemma FilePostIs(d: Disk, v: Vol, lk: set<nat>, p: Path, fd: nat, data: seq<byte>, data': seq<byte>,
                   blocks: bool, leaks: nat, keeps: bool)
    requires FileAt(v, p, fd, data) && FilePost(v, lk, d.Vol(), d.own, d.lk, fd, data', blocks, leaks, keeps)
    ensures BytesDone(d, View(GraphOf(v)), lk, p, fd, data', blocks, leaks, keeps)
  {
    hide *;
    if keeps {
      PostKept(v, lk, d.Vol(), d.own, d.lk, fd, data', blocks, leaks);
      BytesChanged(v, p, fd, data, GraphOf(d.Vol()), data', blocks);
      KeptIsDone(d, View(GraphOf(v)), lk, p, fd, data', blocks, leaks);
    } else {
      PostMended(v, lk, d.Vol(), d.own, d.lk, fd, data', blocks, leaks);
      BytesChanged(v, p, fd, data, GraphOf(Mended(d.Vol(), fd)), data', blocks);
      MendedIsDone(d, View(GraphOf(v)), lk, p, fd, data', blocks, leaks);
    }
  }

  lemma PostKept(v: Vol, lk: set<nat>, v': Vol, own': Owners, lk': set<nat>, fd: nat, data: seq<byte>, blocks: bool,
                 leaks: nat)
    requires FilePost(v, lk, v', own', lk', fd, data, blocks, leaks, true)
    ensures VolOk(v', own', lk') && fd in GraphOf(v) && GraphOf(v') == SetData(GraphOf(v), fd, data, blocks)
    ensures lk <= lk' && |lk'| == |lk| + leaks
  {
    hide VolOk, FileIs, NodeOk, GraphOf, SetData, OtherLines, Mended;
  }

  lemma PostMended(v: Vol, lk: set<nat>, v': Vol, own': Owners, lk': set<nat>, fd: nat, data: seq<byte>, blocks: bool,
                   leaks: nat)
    requires FilePost(v, lk, v', own', lk', fd, data, blocks, leaks, false)
    ensures VolOk(Mended(v', fd), own', lk') && fd in GraphOf(v)
    ensures GraphOf(Mended(v', fd)) == SetData(GraphOf(v), fd, data, blocks)
    ensures lk <= lk' && |lk'| == |lk| + leaks + 1
    ensures !VolOk(v', own', lk')
  {
    hide VolOk, FileIs, GraphOf, SetData, OtherLines, Mended, NodeOk;
    SetDataHas(GraphOf(v), fd, data, blocks);
    MendedLive(v', fd);
    if VolOk(v', own', lk') {
      StoredLine(v', own', lk', fd);
      assert false;
    }
  }

  lemma SetDataHas(g: Graph, fd: nat, data: seq<byte>, blocks: bool)
    requires fd in g
    ensures fd in SetData(g, fd, data, blocks)
  {
  }

  lemma MendedLive(v: Vol, fd: nat)
    requires fd in GraphOf(Mended(v, fd))
    ensures Live(v.bm, fd)
  {
    hide NodeAt, BlockCount, PtrBlocks, ObjOf;
  }

  lemma KeptIsDone(d: Disk, ns: NS, lk: set<nat>, p: Path, fd: nat, data: seq<byte>, blocks: bool, leaks: nat)
    requires VolOk(d.Vol(), d.own, d.lk) && Tree(GraphOf(d.Vol()))
    requires View(GraphOf(d.Vol())) == ns[p := AFile(fd, data, blocks)]
    requires lk <= d.lk && |d.lk| == |lk| + leaks
    ensures BytesDone(d, ns, lk, p, fd, data, blocks, leaks, true)
  {
    hide GraphOf, Tree, View, NodesOk, Sound, TableOf;
  }

  lemma MendedIsDone(d: Disk, ns: NS, lk: set<nat>, p: Path, fd: nat, data: seq<byte>, blocks: bool, leaks: nat)
    requires var w := Mended(d.Vol(), fd);
             VolOk(w, d.own, d.lk) && Tree(GraphOf(w)) && View(GraphOf(w)) == ns[p := AFile(fd, data, blocks)]
    requires !VolOk(d.Vol(), d.own, d.lk)
    requires lk <= d.lk && |d.lk| == |lk| + leaks + 1
    ensures BytesDone(d, ns, lk, p, fd, data, blocks, leaks, false)
  {
    hide GraphOf, Tree, View, VolOk, Mended;
    MendedSizes(d, fd);
  }

  lemma MendedSizes(d: Disk, fd: nat)
    requires VolOk(Mended(d.Vol(), fd), d.own, d.lk)
    ensures d.Sizes()
  {
    hide NodesOk, Sound, TableOf, NodeAt, BlockCount, PtrBlocks, NodeToBlock;
  }

  // ---------------------------------------------------------------- opening what exists

  /** A path that names a file can be opened: its last name fits an entry. */
  lemma FileCanOpen(v: Vol, path: PathStr)
    requires Tree(GraphOf(v)) && NamesFile(View(GraphOf(v)), path) && ClearWalk(View(GraphOf(v)), Split(path))
    ensures CreateDomain(View(GraphOf(v)), path) && !OpenFails(View(GraphOf(v)), path) && !IsNew(View(GraphOf(v)), path)
    ensures Split(path) != [] && Parent(Split(path)) in View(GraphOf(v))
  {
    hide GraphOf, View, Resolve, ClearWalk, Split, Tree;
    var g, p := GraphOf(v), Split(path);
    ViewAt(g, p);
    RootHasItem(g);
    assert p != [];
    var dir := PathLeads(g, p);
    LeadsName(g, p, Resolve(g, p).value, dir);
    ViewAt(g, Parent(p));
    if |path| <= 1 {
      OneByte(path);
    }
  }

  lemma OneByte(path: PathStr)
    requires IsValidPath(path) && |path| <= 1
    ensures Split(path) == []
  {
    assert path == [SLASH];
    RootPaths();
  }

  lemma RootHasItem(g: Graph)
    requires Tree(g)
    ensures [] in View(g) && View(g)[[]] == ADir(0)
  {
    ViewAt(g, []);
    RootIsLive(g);
    hide Tree, View;
  }

  lemma LeadsName(g: Graph, p: Path, n: nat, dir: nat)
    requires Tree(g) && p != [] && Leads(g, p, n, dir, p[|p| - 1])
    ensures ValidName(p[|p| - 1]) && Resolve(g, Parent(p)) == Some(dir)
  {
    ChildIs(g, dir, p[|p| - 1]);
    hide Tree, Child, Resolve;
  }

  /** sac_open on a path that names a file finds it and changes nothing. */
  method OpenFile(d: Disk, path: PathStr, now: nat) returns (fd: nat)
    requires FsOk(d) && NamesFile(Ns(d), path) && ClearWalk(Ns(d), Split(path)) && now < 0x1_0000_0000_0000_0000
    modifies d, d.bits, d.blocks
    ensures d.Vol() == old(d.Vol()) && FsOk(d) && d.lk == old(d.lk)
    ensures FileAt(d.Vol(), Split(path), fd, Ns(d)[Split(path)].data) && fd == Ns(d)[Split(path)].ino
    ensures Ns(d)[Split(path)].blocks == HasBlock(d.Vol().blk, fd)
  {
    hide *;
    FsParts(d);
    ghost var v := d.Vol();
    FileCanOpen(v, path);
    FileIsValid(Ns(d), path);
    var ok, r := OpenAt(d, path, now);
    fd := r.value;
    FsParts(d);
    NamedFile(d.Vol(), d.own, d.lk, path, fd);
    FileAtView(d.Vol(), Split(path), fd, Ns(d)[Split(path)].data);
    SameItem(Ns(d), Split(path), fd, Ns(d)[Split(path)].data, HasBlock(d.Vol().blk, fd));
  }

  lemma SameItem(ns: NS, p: Path, fd: nat, data: seq<byte>, blocks: bool)
    requires p in ns && ns[p] == AFile(fd, data, blocks)
    ensures ns[p].ino == fd && ns[p].data == data && ns[p].blocks == blocks
  {
  }

  lemma FileIsValid(ns: NS, path: PathStr)
    requires NamesFile(ns, path)
    ensures IsValidPath(path) && Split(path) in ns && ns[Split(path)].AFile?
  {
  }

  // ---------------------------------------------------------------- write

  /** sac_write on a live file: the bytes at its path change, and nothing else does. */
  method WriteFd(d: Disk, fd: nat, buffer: seq<byte>, offset: nat, ghost p: Path, ghost data: seq<byte>)
    returns (ok: bool, count: nat)
    requires FsOk(d) && FileAt(d.Vol(), p, fd, data)
    requires GapFits(|data|, offset)
    modifies d, d.bits, d.blocks
    ensures Paid(ok, old(d.Vol()).bm, d.Vol().bm,
                 WriteNeeds(HasBlock(old(d.Vol()).blk, fd), |data|, offset, |buffer|))
    ensures ok ==> count == |buffer|
    ensures ok ==> BytesDone(d, old(Ns(d)), old(d.lk), p, fd, Overwritten(data, offset, buffer), true,
                             Filled(|data|, offset, offset + |buffer|), WriteKeepsShape(|data|, offset, |buffer|))
  {
    hide *;
    FsParts(d);
    ghost var v, lk := d.Vol(), d.lk;
    FileAtView(v, p, fd, data);
    ok, count := Write(d, fd, buffer, offset);
    if ok {
      WritePostIs(d, v, lk, p, fd, data, offset, buffer);
    }
  }

  lemma WritePostIs(d: Disk, v: Vol, lk: set<nat>, p: Path, fd: nat, data: seq<byte>, offset: nat, buffer: seq<byte>)
    requires FileAt(v, p, fd, data) && WritePost(v, lk, d.Vol(), d.own, d.lk, fd, offset, buffer)
    ensures BytesDone(d, View(GraphOf(v)), lk, p, fd, Overwritten(data, offset, buffer), true,
                      Filled(|data|, offset, offset + |buffer|), WriteKeepsShape(|data|, offset, |buffer|))
  {
    hide VolOk, Tree, GraphOf, View, FilePost, Overwritten, Filled, WriteKeepsShape, FileAt, BytesDone, NodeAt,
      FileData;
    FileAtView(v, p, fd, data);
    FilePostIs(d, v, lk, p, fd, data, Overwritten(data, offset, buffer), true,
               Filled(|data|, offset, offset + |buffer|), WriteKeepsShape(|data|, offset, |buffer|));
  }

  /** The number of a file, and where it is. */
  lemma NumberIsAt(v: Vol, own: Owners, lk: set<nat>, fd: nat)
    requires VolOk(v, own, lk) && Tree(GraphOf(v)) && Used(View(GraphOf(v)), fd)
    ensures var p := PathOf(View(GraphOf(v)), fd);
            && Resolve(GraphOf(v), p) == Some(fd) && Live(v.bm, fd)
            && (View(GraphOf(v))[p].AFile? ==>
                  FileAt(v, p, fd, View(GraphOf(v))[p].data) && View(GraphOf(v))[p].blocks == HasBlock(v.blk, fd))
            && (View(GraphOf(v))[p].ADir? ==> NodeAt(v.blk, fd).state != 1)
  {
    hide VolOk, Tree, GraphOf, View, Resolve, NodeAt, FileAt;
    var p := PathOf(View(GraphOf(v)), fd);
    ViewAt(GraphOf(v), p);
    ResolvedIsLive(GraphOf(v), p);
    ParentOf(v, fd);
    FileObj(v, fd);
    if View(GraphOf(v))[p].AFile? {
      FileIsAt(v, p, fd);
      FileAtView(v, p, fd, FileData(v, fd));
    }
  }

  /** sac_write, as an operation on the namespace. */
  method WriteNumber(d: Disk, fd: nat, buffer: seq<byte>, offset: nat) returns (ok: bool, count: nat)
    requires FsOk(d) && WriteAsked(Ns(d), fd, offset)
    modifies d, d.bits, d.blocks
    ensures Used(old(Ns(d)), fd) && old(Ns(d))[PathOf(old(Ns(d)), fd)].AFile?
    ensures ok <==> !WriteExits(old(Ns(d)), fd, buffer, offset, Room(old(d.Vol()).bm))
    ensures ok ==> count == |buffer| && WriteDone(d, old(Ns(d)), old(d.lk), fd, buffer, offset)
    ensures ok ==> (FsOk(d) <==> WriteDomain(old(Ns(d)), fd, buffer, offset))
    ensures ok && FsOk(d) ==>
              var p, ns := PathOf(old(Ns(d)), fd), Ns(d);
              && p in ns && ns[p].AFile? && ns == old(Ns(d))[p := AFile(fd, ns[p].data, true)]
              && var was, now := old(Ns(d))[p].data, ns[p].data;
                 && |now| == (if offset + |buffer| > |was| then offset + |buffer| else |was|)
                 && (forall i | 0 <= i < |now| ::
                       now[i] == if offset <= i < offset + |buffer| then buffer[i - offset]
                                 else if i < |was| then was[i] else 0)
  {
    hide FsOk, VolOk, Tree, View, GraphOf, Used, FileAt, WriteKeepsShape, Filled, Overwritten, WriteNeeds, GapFits,
      Live, NodeAt, Resolve, BytesDone, HasBlock, Room;
    FsParts(d);
    NumberIsAt(d.Vol(), d.own, d.lk, fd);
    ghost var p, ns, lk := PathOf(Ns(d), fd), Ns(d), d.lk;
    ghost var data := ns[p].data;
    ok, count := WriteFd(d, fd, buffer, offset, p, data);
    if ok {
      BytesDoneIff(d, ns, lk, p, fd, Overwritten(data, offset, buffer), true, Filled(|data|, offset, offset + |buffer|),
                   WriteKeepsShape(|data|, offset, |buffer|));
      WriteAnswer(ns, fd, buffer, offset);
      if FsOk(d) {
        WriteDoneHas(d, ns, lk, fd, buffer, offset);
      }
    }
  }

  /** What a write has made of the disk, in the terms of the namespace. */
  ghost predicate WriteDone(d: Disk, ns: NS, lk: set<nat>, fd: nat, buffer: seq<byte>, offset: nat)
    requires Used(ns, fd) && ns[PathOf(ns, fd)].AFile?
    reads d, d.bits, d.blocks
  {
    var p := PathOf(ns, fd);
    var data := ns[p].data;
    BytesDone(d, ns, lk, p, fd, Overwritten(data, offset, buffer), true, Filled(|data|, offset, offset + |buffer|),
              WriteKeepsShape(|data|, offset, |buffer|))
  }

  /** In the domain, a write gives what the abstract one says. */
  lemma WriteDoneHas(d: Disk, ns: NS, lk: set<nat>, fd: nat, buffer: seq<byte>, offset: nat)
    requires WriteDomain(ns, fd, buffer, offset) && WriteDone(d, ns, lk, fd, buffer, offset)
    ensures FsOk(d) && Ns(d) == WriteNext(ns, fd, buffer, offset) && lk <= d.lk
    ensures |d.lk| == |lk| + Filled(|ns[PathOf(ns, fd)].data|, offset, offset + |buffer|)
  {
    hide FsOk, Ns, Used, BytesDone, Overwritten, Filled, WriteKeepsShape, GapFits;
    var data := ns[PathOf(ns, fd)].data;
    BytesDoneHas(d, ns, lk, PathOf(ns, fd), fd, Overwritten(data, offset, buffer), true,
                 Filled(|data|, offset, offset + |buffer|));
  }

  lemma WriteIsAsked(ns: NS, fd: nat, buffer: seq<byte>, offset: nat)
    requires WriteDomain(ns, fd, buffer, offset)
    ensures WriteAsked(ns, fd, offset)
  {
    hide Used;
  }

  // ---------------------------------------------------------------- read

  lemma ReadPostBytes(v: Vol, own: Owners, lk: set<nat>, p: Path, fd: nat, content: seq<byte>, count: nat,
                      offset: nat, r: int, data: seq<byte>)
    requires VolOk(v, own, lk) && FileAt(v, p, fd, content) && ReadPost(v, fd, count, offset, r, data)
    ensures data == Slice(content, offset, count) && (r == |data| || (r == -1 && content == []))
    ensures |NodeAt(v.blk, fd).ptrs| == 1000 && (r == -1 <==> NodeAt(v.blk, fd).ptrs[0] == 0)
  {
    hide *;
    FileAtView(v, p, fd, content);
    NoBlockNoBytes(v, own, lk, fd);
    ReadPostHas(v, fd, count, offset, r, data, content);
  }

  lemma ReadPostHas(v: Vol, fd: nat, count: nat, offset: nat, r: int, data: seq<byte>, content: seq<byte>)
    requires ReadPost(v, fd, count, offset, r, data) && content == FileData(v, fd)
    requires |content| == NodeAt(v.blk, fd).size
    requires NodeAt(v.blk, fd).state == 1 && |NodeAt(v.blk, fd).ptrs| == 1000
    requires NodeAt(v.blk, fd).ptrs[0] == 0 ==> NodeAt(v.blk, fd).size == 0
    ensures data == Slice(content, offset, count) && (r == |data| || (r == -1 && content == []))
    ensures r == -1 <==> NodeAt(v.blk, fd).ptrs[0] == 0
  {
    hide NodeAt, FileData, Slice;
    assert Slice([], offset, count) == [] by { EmptySlice(offset, count); }
  }

  lemma EmptySlice(offset: nat, count: nat)
    ensures Slice([], offset, count) == []
  {
  }

  lemma NoBlockNoBytes(v: Vol, own: Owners, lk: set<nat>, fd: nat)
    requires VolOk(v, own, lk) && IsFile(v, fd)
    ensures |NodeAt(v.blk, fd).ptrs| == 1000 && (NodeAt(v.blk, fd).ptrs[0] == 0 ==> NodeAt(v.blk, fd).size == 0)
    ensures NodeAt(v.blk, fd).state == 1
  {
    hide Sound, NodeAt;
    assert NodeOk(NodeAt(v.blk, fd));
  }

  /** sac_read on a live file. A file that never had a block, which is then empty, is read as an error with no
      bytes; any other gives the number of its bytes in the range. */
  method ReadFd(d: Disk, fd: nat, count: nat, offset: nat, ghost p: Path, ghost content: seq<byte>)
    returns (r: int, data: seq<byte>)
    requires FsOk(d) && FileAt(d.Vol(), p, fd, content) && offset < 0x8000_0000 && offset + count < 0x1_0000_0000
    modifies d.blocks
    ensures d.Vol() == old(d.Vol()) && FsOk(d)
    ensures |NodeAt(d.Vol().blk, fd).ptrs| == 1000 && (NodeAt(d.Vol().blk, fd).ptrs[0] == 0 ==> content == [])
    ensures data == Slice(content, offset, count) && r == if NodeAt(d.Vol().blk, fd).ptrs[0] == 0 then -1 else |data|
    ensures |data| == if offset >= |content| then 0
                      else if count <= |content| - offset then count else |content| - offset
    ensures forall i | 0 <= i < |data| :: data[i] == content[offset + i]
  {
    hide *;
    SliceBytes(content, offset, count);
    FsParts(d);
    ghost var v := d.Vol();
    FileAtView(v, p, fd, content);
    FileIsLive(v, fd);
    r, data := Read(d, fd, count, offset);
    SameFs(d, v);
    ReadPostBytes(v, d.own, d.lk, p, fd, content, count, offset, r, data);
  }

  /** sac_read, as an operation on the namespace: the number may be a directory's. */
  method ReadNumber(d: Disk, fd: nat, count: nat, offset: nat) returns (r: int, data: seq<byte>)
    requires FsOk(d) && ReadDomain(Ns(d), fd, count, offset)
    modifies d.blocks
    ensures d.Vol() == old(d.Vol()) && FsOk(d)
    ensures ReadAnswers(Ns(d)[PathOf(Ns(d), fd)], count, offset, r, data)
    ensures match Ns(d)[PathOf(Ns(d), fd)]
            case ADir(_) => r == -1 && data == []
            case AFile(_, content, blocks) =>
              && |data| == (if offset >= |content| then 0 else if count <= |content| - offset then count
                            else |content| - offset)
              && r == (if blocks then |data| else -1)
              && (forall i | 0 <= i < |data| :: offset + i < |content| && data[i] == content[offset + i])
  {
    hide FsOk, VolOk, Tree, View, GraphOf, Used, FileAt, Slice, Live, NodeAt, Resolve, ReadPost;
    FsParts(d);
    ghost var v := d.Vol();
    NumberIsAt(v, d.own, d.lk, fd);
    r, data := Read(d, fd, count, offset);
    SameFs(d, v);
    ghost var item := Ns(d)[PathOf(Ns(d), fd)];
    if item.AFile? {
      ReadPostBytes(v, d.own, d.lk, PathOf(Ns(d), fd), fd, item.data, count, offset, r, data);
    } else {
      ReadPostDir(v, fd, count, offset, r, data);
    }
    ReadAnswer(item, count, offset, r, data);
  }

  lemma ReadPostDir(v: Vol, fd: nat, count: nat, offset: nat, r: int, data: seq<byte>)
    requires ReadPost(v, fd, count, offset, r, data) && NodeAt(v.blk, fd).state != 1
    ensures r == -1 && data == []
  {
    hide NodeAt, FileData, Slice;
  }

  // ---------------------------------------------------------------- truncate

  /** A write that starts at the end fills no earlier block. */
  lemma GrowKeeps(size: nat, count: nat)
    ensures WriteKeepsShape(size, size, count) && Filled(size, size, size + count) == 0
  {
    TailWriteExact(size, size, count);
  }

  lemma GrownIs(data: seq<byte>, length: nat, buffer: seq<byte>)
    requires length > |data| && buffer == Letters(length - |data|)
    ensures Overwritten(data, |data|, buffer) == Truncated(data, length)
    ensures TruncKeepsShape(|data|, length) && !TruncLeavesBlock(|data|, length)
  {
  }

  lemma TruncPostIs(d: Disk, v: Vol, lk: set<nat>, p: Path, fd: nat, data: seq<byte>, length: nat)
    requires FileAt(v, p, fd, data) && TruncPost(v, lk, d.Vol(), d.own, d.lk, fd, length) && length <= |data|
    ensures p in View(GraphOf(v)) && View(GraphOf(v))[p].AFile? && CutDone(d, View(GraphOf(v)), lk, p, length)
  {
    hide VolOk, Tree, GraphOf, View, FilePost, Truncated, TruncLeavesBlock, TruncKeepsShape, FileAt, BytesDone, NodeAt,
      FileData, HasBlock;
    FileAtView(v, p, fd, data);
    FilePostIs(d, v, lk, p, fd, data, Truncated(data, length), TruncBlocks(HasBlock(v.blk, fd), |data|, length),
               if TruncLeavesBlock(|data|, length) then 1 else 0, TruncKeepsShape(|data|, length));
  }

  /** What cutting a file to a length has made of the disk. */
  ghost predicate CutDone(d: Disk, ns: NS, lk: set<nat>, p: Path, length: nat)
    requires p in ns && ns[p].AFile?
    reads d, d.bits, d.blocks
  {
    var item := ns[p];
    BytesDone(d, ns, lk, p, item.ino, Truncated(item.data, length), TruncBlocks(item.blocks, |item.data|, length),
              if TruncLeavesBlock(|item.data|, length) then 1 else 0, TruncKeepsShape(|item.data|, length))
  }

  /** The lengthening branch of sac_truncate: 'A' bytes are written at the end. */
  method Lengthen(d: Disk, path: PathStr, size: nat, length: nat, now: nat) returns (ok: bool)
    requires FsOk(d) && NamesFile(Ns(d), path) && ClearWalk(Ns(d), Split(path)) && now < 0x1_0000_0000_0000_0000
    requires size == |Ns(d)[Split(path)].data| < length
    modifies d, d.bits, d.blocks
    ensures ok <==> Room(old(d.Vol()).bm) >= WriteNeeds(old(Ns(d))[Split(path)].blocks, size, size, length - size)
    ensures ok ==> FsOk(d) && d.lk >= old(d.lk) && |d.lk| == |old(d.lk)|
    ensures ok ==> Ns(d) == Cut(old(Ns(d)), Split(path), length)
    ensures ok ==> var p, ns := Split(path), Ns(d);
                   && p in ns && ns[p].AFile? && |ns[p].data| == length
                   && ns[p].data[..size] == old(Ns(d))[p].data
                   && (forall i | size <= i < length :: ns[p].data[i] == 65)
    ensures ok ==> CutDone(d, old(Ns(d)), old(d.lk), Split(path), length)
  {
    hide FsOk, View, GraphOf, ClearWalk, Split, FileAt, WriteKeepsShape, Filled, Overwritten, Truncated, Room,
      HasBlock, WriteNeeds, IsValidPath, Letters, BytesDone, TruncKeepsShape, TruncLeavesBlock;
    ghost var ns, lk := Ns(d), d.lk;
    ghost var data := Ns(d)[Split(path)].data;
    var buffer := Letters(length - size);
    LengthenedBytes(data, length);
    GrowKeeps(size, length - size);
    GrownIs(data, length, buffer);
    var fd := OpenFile(d, path, now);
    var count;
    ok, count := WriteFd(d, fd, buffer, size, Split(path), data);
    if ok {
      BytesDoneHas(d, ns, lk, Split(path), fd, Truncated(data, length), true, 0);
    }
  }

  /** sac_truncate, once the path is found to lead to inode n. */
  method TruncateFound(d: Disk, path: PathStr, n: nat, length: nat, now: nat) returns (ok: bool, r: int)
    requires FsOk(d) && PathDomain(Ns(d), path) && IsValidPath(path)
    requires Resolve(GraphOf(d.Vol()), Split(path)) == Some(n)
    requires now < 0x1_0000_0000_0000_0000
    modifies d, d.bits, d.blocks
    ensures ok <==> !TruncExits(old(Ns(d)), path, length, Room(old(d.Vol()).bm))
    ensures ok ==> r == TruncCode(old(Ns(d)), path) && TruncDone(d, old(Ns(d)), old(d.lk), path, length)
  {
    hide *;
    FsParts(d);
    ghost var v, ns, lk := d.Vol(), Ns(d), d.lk;
    FoundItem(v, d.own, lk, path, n);
    var x := d.ReadNode(n);
    ValState(x);
    ok := true;
    if x.state != 1 {
      d.UnmapRead(x, n);
      SameFs(d, v);
      NotCut(d, ns, lk, path, length);
      NoFile(ns, path, length, Room(v.bm));
      return ok, -1;
    }
    r := 0;
    CodeOfFile(ns, path);
    FileIsValid(ns, path);
    ClearOf(ns, path);
    NamedFile(v, d.own, lk, path, n);
    ghost var data := ns[Split(path)].data;
    FileAtView(v, Split(path), n, data);
    SameItem(ns, Split(path), n, data, HasBlock(v.blk, n));
    TruncExitsIs(ns, path, length, Room(v.bm));
    if length > x.size {
      ok := Lengthen(d, path, x.size, length, now);
    } else {
      Shrink(d, x, n, length);
      TruncPostIs(d, v, lk, Split(path), n, data, length);
    }
    if ok {
      CutIsDone(d, ns, lk, path, length);
    }
  }

  /** What a truncate has made of the disk: nothing, if the path names no file. */
  ghost predicate TruncDone(d: Disk, ns: NS, lk: set<nat>, path: PathStr, length: nat)
    reads d, d.bits, d.blocks
  {
    if NamesFile(ns, path) then
      CutDone(d, ns, lk, Split(path), length)
    else
      FsOk(d) && Ns(d) == ns && d.lk == lk
  }

  lemma CutIsDone(d: Disk, ns: NS, lk: set<nat>, path: PathStr, length: nat)
    requires NamesFile(ns, path)
    requires CutDone(d, ns, lk, Split(path), length)
    ensures TruncDone(d, ns, lk, path, length)
  {
    hide CutDone, Split, IsValidPath;
  }

  lemma NotCut(d: Disk, ns: NS, lk: set<nat>, path: PathStr, length: nat)
    requires !NamesFile(ns, path) && FsOk(d) && Ns(d) == ns && d.lk == lk
    ensures TruncDone(d, ns, lk, path, length) && TruncCode(ns, path) == -1
  {
    hide FsOk, Ns, NamesFile;
  }

  lemma CodeOfFile(ns: NS, path: PathStr)
    requires NamesFile(ns, path)
    ensures TruncCode(ns, path) == 0
  {
    hide NamesFile;
  }

  /** The file system survives exactly in the domain. */
  lemma TruncDoneIff(d: Disk, ns: NS, lk: set<nat>, path: PathStr, length: int)
    requires TruncAsked(ns, path, length) && TruncDone(d, ns, lk, path, NotNegative(length))
    ensures FsOk(d) <==> TruncDomain(ns, path, length)
  {
    hide FsOk, Ns, Split, IsValidPath, PathDomain, BytesDone, Truncated, TruncLeavesBlock, TruncKeepsShape;
    if NamesFile(ns, path) {
      var item, n := ns[Split(path)], NotNegative(length);
      BytesDoneIff(d, ns, lk, Split(path), item.ino, Truncated(item.data, n),
                   TruncBlocks(item.blocks, |item.data|, n),
                   if TruncLeavesBlock(|item.data|, n) then 1 else 0, TruncKeepsShape(|item.data|, n));
    }
  }

  /** In the domain, a truncate gives what the abstract one says. */
  lemma TruncDoneHas(d: Disk, ns: NS, lk: set<nat>, path: PathStr, length: int)
    requires TruncDomain(ns, path, length) && TruncDone(d, ns, lk, path, NotNegative(length))
    ensures FsOk(d) && Ns(d) == TruncNext(ns, path, length) && lk <= d.lk
    ensures var p := Split(path);
            |d.lk| == |lk| + if NamesFile(ns, path) && TruncLeavesBlock(|ns[p].data|, NotNegative(length)) then 1 else 0
  {
    hide FsOk, Ns, Split, IsValidPath, PathDomain, BytesDone, Truncated, TruncLeavesBlock, TruncKeepsShape;
    if NamesFile(ns, path) {
      var item, n := ns[Split(path)], NotNegative(length);
      BytesDoneHas(d, ns, lk, Split(path), item.ino, Truncated(item.data, n),
                   TruncBlocks(item.blocks, |item.data|, n),
                   if TruncLeavesBlock(|item.data|, n) then 1 else 0);
    }
  }

  lemma TruncIsAsked(ns: NS, path: PathStr, length: int)
    requires TruncDomain(ns, path, length)
    ensures TruncAsked(ns, path, length)
  {
    hide PathDomain;
  }

  lemma NoFile(ns: NS, path: PathStr, length: nat, room: nat)
    requires !NamesFile(ns, path)
    ensures !TruncExits(ns, path, length, room)
  {
  }

  lemma TruncExitsIs(ns: NS, path: PathStr, length: nat, room: nat)
    requires NamesFile(ns, path)
    ensures TruncExits(ns, path, length, room) <==>
            var item := ns[Split(path)];
            length > |item.data| && room < WriteNeeds(item.blocks, |item.data|, |item.data|, length - |item.data|)
  {
    hide WriteNeeds, Split, IsValidPath;
  }

  lemma ClearOf(ns: NS, path: PathStr)
    requires PathDomain(ns, path) && IsValidPath(path)
    ensures ClearWalk(ns, Split(path))
  {
  }

  /** sac_truncate. */
  method Truncate(d: Disk, path: PathStr, length: int, now: nat) returns (ok: bool, r: int)
    requires FsOk(d) && TruncAsked(Ns(d), path, length) && now < 0x1_0000_0000_0000_0000
    modifies d, d.bits, d.blocks
    ensures ok <==> !TruncExits(old(Ns(d)), path, NotNegative(length), Room(old(d.Vol()).bm))
    ensures ok ==> r == TruncCode(old(Ns(d)), path) && TruncDone(d, old(Ns(d)), old(d.lk), path, NotNegative(length))
    ensures ok ==> (FsOk(d) <==> TruncDomain(old(Ns(d)), path, length))
    ensures ok ==> r == 0 || r == -1
    ensures ok ==> (r == 0 <==> IsValidPath(path) && Split(path) in old(Ns(d)) && old(Ns(d))[Split(path)].AFile?)
    ensures ok && r == -1 ==> FsOk(d) && Ns(d) == old(Ns(d))
    ensures ok && r == 0 && FsOk(d) ==>
              var p, ns := Split(path), Ns(d);
              && p in ns && ns[p].AFile? && ns == old(Ns(d))[p := AFile(ns[p].ino, ns[p].data, ns[p].blocks)]
              && ns[p].ino == old(Ns(d))[p].ino
              && var was, now := old(Ns(d))[p].data, ns[p].data;
                 if length > |was| then
                   |now| == length && now[..|was|] == was && forall i | |was| <= i < length :: now[i] == 65
                 else if length <= 0 then
                   now == []
                 else
                   && now <= was
                   && |now| == if length % 4096 == 0 || |was| - length < 4096 || |was| / 4096 != length / 4096 + 1
                               then length else length - length % 4096
  {
    hide FsOk, View, GraphOf, Resolve, Split, Walkable, PathDomain, NamesFile, TruncDomain, TruncDone, TruncCode,
      TruncExits, IsValidPath;
    ghost var ns, lk := Ns(d), d.lk;
    ok, r := true, -1;
    var most := NotNegative(length);
    if IsValidPath(path) {
      DomainWalk(d, path);
      var n := SearchPath(d, path);
      if n.Some? {
        ok, r := TruncateFound(d, path, n.value, most, now);
      } else {
        NothingThere(d, path);
        NotCut(d, ns, lk, path, most);
        NoFile(ns, path, most, Room(d.Vol().bm));
      }
    } else {
      NotValid(ns, path);
      NotCut(d, ns, lk, path, most);
      NoFile(ns, path, most, Room(d.Vol().bm));
    }
    TruncAnswer(ns, path, length);
    if ok {
      TruncDoneIff(d, ns, lk, path, length);
      if FsOk(d) {
        TruncDoneHas(d, ns, lk, path, length);
      } else {
        TruncFailsFile(d, ns, lk, path, most);
      }
    }
  }

  /** Only a truncate of a file can leave the domain. */
  lemma TruncFailsFile(d: Disk, ns: NS, lk: set<nat>, path: PathStr, length: nat)
    requires TruncDone(d, ns, lk, path, length) && !FsOk(d)
    ensures NamesFile(ns, path) && TruncCode(ns, path) == 0
  {
    hide FsOk, Ns, CutDone, NamesFile;
  }
}
