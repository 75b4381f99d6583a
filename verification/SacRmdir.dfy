/** sac_rmdir. */
module SacRmdir {
  import opened Bytes
  import opened Layout
  import opened Volume
  import opened Graph
  import opened GraphOps
  import opened Namespace
  import opened Abstract
  import opened Results
  import opened Paths
  import opened Inodes
  import opened DiskState
  import opened NodeOps
  import opened DirStore
  import opened Search
  import opened Creation
  import opened Removal
  import opened SacDirs
  import opened SacRemove

  /** What the inode of an empty directory holds. */
  lemma EmptyDirNode(v: Vol, own: Owners, lk: set<nat>, n: nat)
    requires VolOk(v, own, lk) && IsDir(GraphOf(v), n)
    ensures NodeAt(v.blk, n).size == 0 <==> GraphOf(v)[n].body.ents == []
    ensures NodeAt(v.blk, n).size == 0 ==> BlockCount(NodeAt(v.blk, n)) == 0
    ensures NodeAt(v.blk, n).size == 0 ==> forall i | 0 <= i < 1000 :: NodeAt(v.blk, n).ptrs[i] == 0
  {
    hide Sound, NodeAt, TableOf, GraphOf, DirEntries;
    DirObj(v, n);
    assert NodeOk(NodeAt(v.blk, n));
    DirCount(NodeAt(v.blk, n));
  }

  /** Directory n is empty and its entry is gone from dir. */
  ghost predicate Unlinked(v: Vol, lk: set<nat>, v1: Vol, own1: Owners, lk1: set<nat>, n: nat, dir: nat, name: Name)
  {
    && n < NODE_TABLE_BLOCKS && n != dir && BlockCount(NodeAt(v1.blk, n)) == 0
    && IsDir(GraphOf(v), dir) && Child(GraphOf(v), dir, name) == Some(n)
    && VolOk(v1, own1, lk1) && GraphOf(v1) == DropEntryOf(GraphOf(v), dir, name)
    && lk <= lk1 && |lk1| == |lk| + (if |GraphOf(v)[dir].body.ents| == 1 then 2 else 0)
  }

  lemma EntryUnlinked(v: Vol, own: Owners, lk: set<nat>, blk: seq<Block>, own1: Owners, lk1: set<nat>, n: nat,
                      dir: nat, name: Name)
    requires VolOk(v, own, lk) && IsDir(GraphOf(v), n) && n != dir && n < NODE_TABLE_BLOCKS
    requires NodeAt(v.blk, n).size == 0
    requires EntryDeleted(v, lk, blk, own1, lk1, dir, name) && Child(GraphOf(v), dir, name) == Some(n)
    ensures NodeAt(blk, n) == NodeAt(v.blk, n)
    ensures |NodeAt(blk, n).ptrs| == 1000 && NodeAt(blk, n).ptrs[0] == 0
    ensures forall i | 0 <= i < 1000 :: NodeAt(blk, n).ptrs[i] < TOTAL_BLOCKS
    ensures Unlinked(v, lk, Vol(v.bm, blk), own1, lk1, n, dir, name)
  {
    EmptyDirNode(v, own, lk, n);
    SameNode(v.blk, blk, n, dir);
    hide VolOk, GraphOf, Child, NodeAt, DropEntryOf, BlockCount, OthersSame;
  }

  lemma SameNode(blk: seq<Block>, blk': seq<Block>, n: nat, dir: nat)
    requires OthersSame(blk, blk', dir) && n != dir && n < NODE_TABLE_BLOCKS
    ensures NodeAt(blk', n) == NodeAt(blk, n)
  {
    hide BlockToNode;
  }

  lemma DirGivenUp(v: Vol, lk: set<nat>, v1: Vol, own1: Owners, lk1: set<nat>, n: nat, dir: nat, name: Name, b: Block)
    requires Unlinked(v, lk, v1, own1, lk1, n, dir, name) && BlockToNode(b).state == 0
    ensures |v1.bm| == |v1.blk| == TOTAL_BLOCKS && n < NODE_TABLE_BLOCKS
    ensures GivenUp(v, lk, Vol(v1.bm[n + 2 := false], v1.blk[n + 2 := b]), own1, lk1, n, dir, name)
  {
    assert |v1.bm| == |v1.blk| == TOTAL_BLOCKS;
    assert NodeAt(v1.blk[n + 2 := b], n) == BlockToNode(b);
    hide VolOk, GraphOf, Child, NodeAt, BlockToNode, DropEntryOf, BlockCount;
    DropEmpty(v1, own1, lk1, n, b);
  }

  /** delete_parent_entry: the entry goes from the directory that the inode's parent field names. */
  method DeleteParentEntry(d: Disk, n: nat, name: Name, ghost dir: nat)
    requires d.Ok() && IsDir(GraphOf(d.Vol()), dir) && dir < NODE_TABLE_BLOCKS
    requires Child(GraphOf(d.Vol()), dir, name).Some?
    requires n < NODE_TABLE_BLOCKS && n != dir && NodeAt(d.Vol().blk, n).parent == dir + 2 && name != []
    modifies d, d.blocks
    ensures d.Sizes() && d.Vol().bm == old(d.Vol()).bm
    ensures EntryDeleted(old(d.Vol()), old(d.lk), d.Vol().blk, d.own, d.lk, dir, name)
  {
    hide *;
    Constants();
    ghost var v := d.Vol();
    DiskSound(d);
    SameDataRefl(d);
    var x := d.ReadNode(n);
    ValState(x);
    var folder: nat := x.parent - NODE_TABLE_INITIAL_BLOCK;
    var parent := d.ReadNode(folder);
    DeleteEntryAndUnmap(d, parent, folder, name, v);
    NodeKept(v, d.Vol().blk, d.lk, d.own, n, dir, name, old(d.lk));
    d.UnmapRead(x, n);
  }

  lemma NodeKept(v: Vol, blk: seq<Block>, lk': set<nat>, own': Owners, n: nat, dir: nat, name: Name, lk: set<nat>)
    requires EntryDeleted(v, lk, blk, own', lk', dir, name) && n != dir && n < NODE_TABLE_BLOCKS
    ensures NodeAt(blk, n) == NodeAt(v.blk, n)
  {
    hide VolOk, GraphOf, Child, NodeAt, DropEntryOf, OthersSame;
    SameNode(v.blk, blk, n, dir);
  }

  lemma SameDataRefl(d: Disk)
    requires d.Sizes()
    ensures SameData(d.Vol(), d.Vol())
  {
  }

  /** The body of sac_rmdir after its checks. The list of directories to delete holds this one only, since
      it has no entries. */
  method RemoveDir(d: Disk, n: nat, name: Name, ghost dir: nat)
    requires d.Ok() && IsDir(GraphOf(d.Vol()), n) && NodeAt(d.Vol().blk, n).size == 0 && name != []
    requires n < NODE_TABLE_BLOCKS
    requires var g := GraphOf(d.Vol());
             IsDir(g, dir) && Child(g, dir, name) == Some(n) && dir < NODE_TABLE_BLOCKS && n != dir
    requires NodeAt(d.Vol().blk, n).parent == dir + 2
    modifies d, d.bits, d.blocks
    ensures d.Sizes() && GivenUp(old(d.Vol()), old(d.lk), d.Vol(), d.own, d.lk, n, dir, name)
  {
    hide *;
    ghost var v, own, lk := d.Vol(), d.own, d.lk;
    DiskSound(d);
    DeleteParentEntry(d, n, name, dir);
    EntryUnlinked(v, own, lk, d.Vol().blk, d.own, d.lk, n, dir, name);
    VolIs(d, v.bm, d.Vol().blk);
    DeleteAllDirectoryEntries(d, n);
    NothingCleared(v.bm, d.Vol().bm, NodeAt(d.Vol().blk, n).ptrs);
    VolIs(d, v.bm, d.Vol().blk);
    FinishRmdir(d, n, v, lk, dir, name);
  }

  /** Without pointers nothing is cleared. */
  lemma NothingCleared(bm: seq<bool>, bm': seq<bool>, ptrs: seq<u32>)
    requires |ptrs| > 0 && ptrs[0] == 0 && Cleared(bm, bm', FirstPointers(ptrs, SetPointers(ptrs)))
    ensures bm' == bm
  {
    NoPointers(bm, ptrs);
  }

  method FinishRmdir(d: Disk, n: nat, ghost v: Vol, ghost lk: set<nat>, ghost dir: nat, ghost name: Name)
    requires d.Sizes() && Unlinked(v, lk, d.Vol(), d.own, d.lk, n, dir, name)
    modifies d.bits, d.blocks
    ensures d.Sizes() && GivenUp(v, lk, d.Vol(), d.own, d.lk, n, dir, name)
  {
    hide VolOk, GraphOf, Child, NodeAt, BlockCount, DropEntryOf, GivenUp, BlockToNode, NodeToBlock;
    ghost var v1, own1, lk1 := d.Vol(), d.own, d.lk;
    DeleteNode(d, n);
    ghost var x := Erased(NodeAt(v1.blk, n));
    NodeRoundTrip(x);
    DirGivenUp(v, lk, v1, own1, lk1, n, dir, name, NodeToBlock(x));
  }

  // ---------------------------------------------------------------- the path

  /** A path that names a directory other than the root. */
  lemma DirLeads(v: Vol, own: Owners, lk: set<nat>, path: PathStr, n: nat) returns (dir: nat)
    requires VolOk(v, own, lk) && Tree(GraphOf(v)) && Split(path) != [] && Resolve(GraphOf(v), Split(path)) == Some(n)
    requires IsValidPath(path) && NodeAt(v.blk, n).state == 2
    ensures Leads(GraphOf(v), Split(path), n, dir, Split(path)[|Split(path)| - 1])
    ensures IsDir(GraphOf(v), n) && NodeAt(v.blk, n).parent == dir + 2
    ensures EmptyDir(View(GraphOf(v)), Split(path)) <==> NodeAt(v.blk, n).size == 0
    ensures NodeAt(v.blk, n).size == 0 ==> GraphOf(v)[n].body == Dir([])
  {
    hide VolOk, Tree, GraphOf, View, Split, NodeAt, Resolve, BlockCount;
    FoundItem(v, own, lk, path, n);
    dir := PathLeads(GraphOf(v), Split(path));
    ParentOf(v, n);
    EmptyDirNode(v, own, lk, n);
    EmptyIs(GraphOf(v), Split(path), n);
  }

  lemma NotRoot(path: PathStr)
    requires IsValidPath(path) && |path| > 1
    ensures Split(path) != []
  {
    LastName(path);
  }

  /** sac_rmdir, once the path is found to lead to inode n. */
  method RmdirFound(d: Disk, path: PathStr, n: nat) returns (r: int)
    requires FsOk(d) && IsValidPath(path) && |path| > 1 && Resolve(GraphOf(d.Vol()), Split(path)) == Some(n)
    modifies d, d.bits, d.blocks
    ensures r == 0 || r == -1 || r == -2
    ensures NamesDir(old(Ns(d)), path) <==> r != -1
    ensures r != -1 ==> (EmptyDir(old(Ns(d)), Split(path)) <==> r == 0)
    ensures r == 0 ==> Gone(d, old(Ns(d)), old(d.lk), Split(path))
    ensures r != 0 ==> FsOk(d) && Ns(d) == old(Ns(d)) && d.lk == old(d.lk)
  {
    hide *;
    FsParts(d);
    NotRoot(path);
    ghost var v, lk := d.Vol(), d.lk;
    FoundItem(v, d.own, lk, path, n);
    var x := d.ReadNode(n);
    ValState(x);
    d.UnmapRead(x, n);
    SameFs(d, v);
    FsParts(d);
    if x.state != 2 {
      return -1;
    }
    ghost var dir := DirLeads(v, d.own, lk, path, n);
    var names := Split(path);
    LeadsHas(GraphOf(v), names, n, dir, names[|names| - 1]);
    var y := d.ReadNode(n);
    ValState(y);
    if y.size > 0 {
      d.UnmapRead(y, n);
      SameFs(d, v);
      return -2;
    }
    RemoveDir(d, n, names[|names| - 1], dir);
    GivenUpIsGone(d, v, lk, names, n, dir, names[|names| - 1]);
    r := 0;
  }

  /** sac_rmdir. */
  method Rmdir(d: Disk, path: PathStr) returns (r: int)
    requires FsOk(d) && PathDomain(Ns(d), path) && (IsValidPath(path) ==> |path| > 1)
    modifies d, d.bits, d.blocks
    ensures FsOk(d) && r == RmdirCode(old(Ns(d)), path) && Ns(d) == RmdirNext(old(Ns(d)), path)
    ensures old(d.lk) <= d.lk
    ensures |d.lk| == |old(d.lk)| + if r == 0 && Alone(old(Ns(d)), Split(path)) then 2 else 0
    ensures r == 0 || r == -1 || r == -2
    ensures r == -1 <==> !(IsValidPath(path) && Split(path) in old(Ns(d)) && old(Ns(d))[Split(path)].ADir?)
    ensures r == -2 <==>
            && IsValidPath(path) && Split(path) in old(Ns(d)) && old(Ns(d))[Split(path)].ADir?
            && exists name: Name :: Split(path) + [name] in old(Ns(d))
    ensures r == 0 ==> Ns(d) == imap p | p in old(Ns(d)) && p != Split(path) :: old(Ns(d))[p]
    ensures r != 0 ==> Ns(d) == old(Ns(d))
  {
    hide FsOk, View, GraphOf, Resolve, Split, Walkable, PathDomain, NamesDir, Without, Alone, Gone, EmptyDir;
    RmdirAnswer(Ns(d), path);
    r := -1;
    ghost var ns, lk := Ns(d), d.lk;
    if IsValidPath(path) {
      DomainWalk(d, path);
      var n := SearchPath(d, path);
      if n.Some? {
        r := RmdirFound(d, path, n.value);
        if r == 0 {
          GoneHas(d, ns, lk, Split(path));
        }
      } else {
        NothingThere(d, path);
      }
    } else {
      NotValid(ns, path);
    }
  }
}
