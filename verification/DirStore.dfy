/** Directories of a sound volume: reading one, and writing a changed one back. New inodes. */
module DirStore {
  import opened Bytes
  import opened Layout
  import opened Volume
  import opened Graph
  import opened GraphOps
  import opened Inodes
  import opened Commits
  import opened DiskState
  import opened NodeOps
  import opened FileWrite
  import opened FileCommit
  import opened FileStore
  import opened Directory

  /** The whole invariant: unaliased blocks, well-formed inodes and a tree of directories. */
  ghost predicate FsOk(d: Disk)
    reads d, d.bits, d.blocks
  {
    d.Ok() && Tree(GraphOf(d.Vol()))
  }

  /** A directory's entry list in the graph is what its blocks hold. */
  lemma DirObj(v: Vol, n: nat)
    requires IsDir(GraphOf(v), n)
    ensures Live(v.bm, n) && NodeAt(v.blk, n).state != 1
    ensures n in TableOf(v) && TableOf(v)[n] == ExtentOf(v.blk, NodeAt(v.blk, n))
    ensures GraphOf(v)[n] == Obj(NodeAt(v.blk, n).parent, Dir(DirEntries(v.blk, TableOf(v)[n], NodeAt(v.blk, n).size)))
  {
    hide ExtentOf, NodeAt, DirEntries, FileBytes;
  }

  lemma FileObj(v: Vol, n: nat)
    requires Live(v.bm, n)
    ensures n in GraphOf(v) && n in TableOf(v)
    ensures NodeAt(v.blk, n).state == 1 <==> GraphOf(v)[n].body.File?
    ensures NodeAt(v.blk, n).state == 1 ==>
              GraphOf(v)[n].body == File(FileData(v, n), BlockCount(NodeAt(v.blk, n)) > 0)
  {
    hide ExtentOf, NodeAt, DirEntries, FileBytes;
  }

  lemma LiveInGraph(v: Vol, n: nat)
    ensures n in GraphOf(v) <==> Live(v.bm, n)
  {
    hide ExtentOf, NodeAt, DirEntries, FileBytes;
  }

  /** A copy of a directory just read is ready to be searched and changed. */
  lemma DirReady(d: Disk, x: TNode, n: nat)
    requires d.Ok() && IsDir(GraphOf(d.Vol()), n) && x.Val() == NodeAt(d.Vol().blk, n)
    ensures DirCopy(d, x, n, TableOf(d.Vol()))
    ensures EntriesIn(d, x, n, TableOf(d.Vol())) == GraphOf(d.Vol())[n].body.ents
    ensures Fits(x.Val()) && n < NODE_TABLE_BLOCKS
    ensures Snapshot(d, TableOf(d.Vol()), x) ==
            Start(d.Vol().bm, d.Vol().blk, d.own, d.lk, TableOf(d.Vol()), NodeAt(d.Vol().blk, n))
  {
    hide VolOk, NodeAt, NodeOk, Holding, TableOf, GraphOf, DirEntries, ExtentOf, BlockCount;
    DirObj(d.Vol(), n);
    ReadyCopy(d, x, n);
    DirCount(x.Val());
    assert n < NODE_TABLE_BLOCKS;
  }

  lemma DirCount(x: Node)
    requires NodeOk(x) && x.state != 1
    ensures x.state == 2 && Fits(x) && x.size % 128 == 0 && x.size <= 3968
    ensures BlockCount(x) == if x.size == 0 then 0 else 1
  {
  }

  lemma DirIsOk(blk: seq<Block>, x: Node, f: Extent)
    requires Linked(blk, x.ptrs, f) && Fits(x) && 0 in x.name && x.state == 2
    requires x.size % 128 == 0 && x.size <= 3968 && |f.data| == if x.size == 0 then 0 else 1
    ensures NodeOk(x) && |f.data| == BlockCount(x)
  {
  }

  /** A directory's inode is written back with other entries. */
  lemma CommitDir(v: Vol, own: Owners, lk: set<nat>, s: Start, n: nat)
    requires VolOk(v, own, lk) && IsDir(GraphOf(v), n)
    requires Follows(Start(v.bm, v.blk, own, lk, TableOf(v), NodeAt(v.blk, n)), s, n)
    requires Fits(s.x) && s.x.state == 2 && Linked(s.blk, s.x.ptrs, s.t[n]) && Sound(s.bm, s.t, s.own, s.lk)
    requires s.x.size % 128 == 0 && s.x.size <= 3968 && |s.t[n].data| == if s.x.size == 0 then 0 else 1
    ensures |s.blk| == TOTAL_BLOCKS && n < NODE_TABLE_BLOCKS
    ensures var v' := Vol(s.bm, s.blk[n + 2 := NodeToBlock(s.x)]);
            && VolOk(v', s.own, s.lk)
            && NodeAt(v'.blk, n) == s.x
            && GraphOf(v') == SetEntries(GraphOf(v), n, DirEntries(s.blk, s.t[n], s.x.size))
  {
    hide VolOk, Sound, Linked, NodeAt, NodeToBlock, NodeOk, FileBytes, DirEntries, BlockCount, TableOf, GraphOf,
      ExtentOf, Follows, OnlyNode, DataSame;
    FollowsLocal(v, own, lk, s, n, NodeToBlock(s.x));
    var v', f := Vol(s.bm, s.blk[n + 2 := NodeToBlock(s.x)]), s.t[n];
    DirIsOk(s.blk, s.x, f);
    UnmapFrame(s.bm, s.blk, s.t, s.own, s.lk, n, s.x.ptrs, n + 2, NodeToBlock(s.x));
    Commit(v, own, lk, v', s.own, s.lk, n, s.x, f);
    DirObjIs(v'.blk, s.x, f, GraphOf(v)[n].parent);
    SameBytes(s.blk, v'.blk, f, s.x.size);
  }

  /** A changed copy of a live directory differs from the volume in its own blocks only. */
  lemma FollowsLocal(v: Vol, own: Owners, lk: set<nat>, s: Start, n: nat, b: Block)
    requires VolOk(v, own, lk) && IsDir(GraphOf(v), n)
    requires Follows(Start(v.bm, v.blk, own, lk, TableOf(v), NodeAt(v.blk, n)), s, n)
    ensures n < NODE_TABLE_BLOCKS && |s.blk| == TOTAL_BLOCKS && n in s.t && s.t == TableOf(v)[n := s.t[n]]
    ensures OnlyNode(v, own, Vol(s.bm, s.blk[n + 2 := b]), n) && Live(s.bm, n)
    ensures n in GraphOf(v) && GraphOf(v)[n].parent == s.x.parent && 0 in s.x.name
  {
    DirObj(v, n);
    OwnersInRegion(v.bm, TableOf(v), own, lk);
    hide Sound, NodeAt, TableOf, GraphOf, ExtentOf, SameOwners, DirEntries;
    OnlyNodeAfter(v, own, s.bm, s.blk, n, b);
  }

  lemma DirObjIs(blk: seq<Block>, x: Node, f: Extent, parent: nat)
    requires Linked(blk, x.ptrs, f) && |f.data| == BlockCount(x) && x.state == 2 && parent == x.parent
    ensures ObjOf(blk, x) == Obj(parent, Dir(DirEntries(blk, f, x.size)))
  {
    LinkedIsExtent(blk, x, f);
    hide Linked, BlockCount, ExtentOf, DirEntries;
  }

  // ---------------------------------------------------------------- new inodes

  /** create_node: an inode with no blocks. */
  function NewNode(state: byte, name: Name, parent: nat, now: nat): Node
    requires |name| <= 70
  {
    Node(state, NameBuffer(name), parent, 0, now, now, seq(1000, _ => 0))
  }

  lemma NewNodeOk(state: byte, name: Name, parent: nat, now: nat)
    requires |name| <= 70 && (state == 1 || state == 2) && parent < 0x1_0000_0000 && now < 0x1_0000_0000_0000_0000
    ensures NodeOk(NewNode(state, name, parent, now)) && BlockCount(NewNode(state, name, parent, now)) == 0
    ensures forall blk :: Linked(blk, NewNode(state, name, parent, now).ptrs, Extent([], []))
  {
  }

  /** Field by field: the name as a string, both dates the time of making, and no pointer set. */
  lemma NewNodeIs(state: byte, name: Name, parent: nat, now: nat)
    requires |name| <= 70 && 0 !in name
    ensures var x := NewNode(state, name, parent, now);
            && x.state == state && |x.name| == 71 && CStr(x.name) == name && x.parent == parent && x.size == 0
            && x.ctime == now && x.mtime == now && |x.ptrs| == 1000 && forall i | 0 <= i < 1000 :: x.ptrs[i] == 0
  {
    CStrOf(name, seq(70 - |name|, _ => 0));
  }

  function EmptyBody(state: byte): Body
  {
    if state == 1 then File([], false) else Dir([])
  }

  lemma NewObj(blk: seq<Block>, x: Node)
    requires BlockCount(x) == 0 && x.size == 0
    ensures ObjOf(blk, x) == Obj(x.parent, EmptyBody(x.state))
  {
  }

  /** A free inode block is reserved and a new inode stored in it. */
  lemma CommitNew(v: Vol, own: Owners, lk: set<nat>, n: nat, state: byte, name: Name, parent: nat, now: nat)
    requires VolOk(v, own, lk) && n < NODE_TABLE_BLOCKS && !v.bm[n + 2]
    requires |name| <= 70 && (state == 1 || state == 2) && parent < 0x1_0000_0000 && now < 0x1_0000_0000_0000_0000
    ensures var x := NewNode(state, name, parent, now);
            && Fits(x)
            && var v' := Vol(v.bm[n + 2 := true], v.blk[n + 2 := NodeToBlock(x)]);
               && VolOk(v', own, lk)
               && GraphOf(v') == GraphOf(v)[n := Obj(parent, EmptyBody(state))]
    ensures n !in GraphOf(v)
  {
    var x := NewNode(state, name, parent, now);
    NewNodeOk(state, name, parent, now);
    LiveInGraph(v, n);
    assert Fits(x);
    hide Sound, Linked, NodeAt, NodeToBlock, BlockToNode, NodeOk, BlockCount, TableOf, GraphOf, ObjOf, OnlyNode,
      NewNode;
    var v' := Vol(v.bm[n + 2 := true], v.blk[n + 2 := NodeToBlock(x)]);
    NewIsLocal(v, own, lk, n, NodeToBlock(x));
    NewObj(v'.blk, x);
    hide Live, VolOk;
    Commit(v, own, lk, v', own, lk, n, x, Extent([], []));
  }

  lemma NewIsLocal(v: Vol, own: Owners, lk: set<nat>, n: nat, b: Block)
    requires VolOk(v, own, lk) && n < NODE_TABLE_BLOCKS && !v.bm[n + 2]
    ensures var v' := Vol(v.bm[n + 2 := true], v.blk[n + 2 := b]);
            && OnlyNode(v, own, v', n) && Live(v'.bm, n)
            && Sound(v'.bm, TableOf(v)[n := Extent([], [])], own, lk)
  {
    hide Sound, NodeAt, ExtentOf, TableOf, VolOk, OnlyNode;
    SoundTable(v, own, lk, n);
    EmptySound(v.bm, TableOf(v), own, lk, n);
    LowBitSound(v.bm, TableOf(v)[n := Extent([], [])], own, lk, n + 2, true);
    OwnersInRegion(v.bm, TableOf(v), own, lk);
    NewOnly(v, own, n, b);
  }

  lemma SoundTable(v: Vol, own: Owners, lk: set<nat>, n: nat)
    requires VolOk(v, own, lk) && n < NODE_TABLE_BLOCKS && !v.bm[n + 2]
    ensures WfVol(v) && Sound(v.bm, TableOf(v), own, lk) && n !in TableOf(v)
  {
    hide Sound, NodeAt, ExtentOf;
  }

  lemma NewOnly(v: Vol, own: Owners, n: nat, b: Block)
    requires WfVol(v) && n < NODE_TABLE_BLOCKS && forall x | x in own :: InRegion(x)
    ensures OnlyNode(v, own, Vol(v.bm[n + 2 := true], v.blk[n + 2 := b]), n)
  {
  }
}
