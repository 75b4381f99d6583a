/** sac_remove and sac_rmdir. */
module SacRemove {
  import opened Layout
  import opened Volume
  import opened Graph
  import opened GraphOps
  import opened Namespace
  import opened Abstract
  import opened Results
  import opened Paths
  import opened Inodes
  import opened DiskState
  import opened Bitmap
  import opened NodeOps
  import opened FileStore
  import opened DirStore
  import opened Creation
  import opened Search
  import opened Removal
  import opened SacDirs

  // ---------------------------------------------------------------- what a path leads to

  /** Path p leads to inode n through the entry name of directory dir. */
  ghost predicate Leads(g: Graph, p: Path, n: nat, dir: nat, name: Name)
  {
    && p != [] && name == p[|p| - 1] && name != []
    && Resolve(g, Parent(p)) == Some(dir) && IsDir(g, dir) && dir < NODE_TABLE_BLOCKS
    && Child(g, dir, name) == Some(n) && n in g && n != 0 && n != dir && n < NODE_TABLE_BLOCKS
    && g[n].parent == dir + 2
  }

  lemma PathLeads(g: Graph, p: Path) returns (dir: nat)
    requires Tree(g) && p != [] && Resolve(g, p).Some?
    ensures Leads(g, p, Resolve(g, p).value, dir, p[|p| - 1])
  {
    dir := Resolve(g, Parent(p)).value;
    var n, name := Resolve(g, p).value, p[|p| - 1];
    ChildIs(g, dir, name);
    ResolvedIsLive(g, Parent(p));
    DirInTable(g, dir);
    DirInTable(g, n);
    hide Tree, Child;
    if n == dir {
      PathUnique(g, p, Parent(p));
    }
  }

  /** A leaf that goes with its entry, in the abstraction. */
  lemma RemovedView(g: Graph, p: Path, n: nat, dir: nat, name: Name)
    requires Tree(g) && Leads(g, p, n, dir, name) && (g[n].body.File? || g[n].body == Dir([]))
    ensures Tree(RemoveChild(g, dir, name)) && View(RemoveChild(g, dir, name)) == Without(View(g), p)
  {
    hide CanRemove, Tree, Child, Resolve, View, Without, RemoveChild;
    LeafCanGo(g, p, n, dir, name);
    RemoveChildTree(g, dir, name);
    ViewRemove(g, dir, name, Parent(p));
  }

  lemma LeafCanGo(g: Graph, p: Path, n: nat, dir: nat, name: Name)
    requires Tree(g) && Leads(g, p, n, dir, name) && (g[n].body.File? || g[n].body == Dir([]))
    ensures CanRemove(g, dir, name) && p != [] && Parent(p) + [name] == p && Resolve(g, Parent(p)) == Some(dir)
    ensures IsDir(g, dir) && Child(g, dir, name).Some?
  {
    hide Tree, Child, Resolve;
  }

  lemma AloneIs(g: Graph, p: Path, n: nat, dir: nat, name: Name)
    requires Tree(g) && Leads(g, p, n, dir, name)
    ensures Alone(View(g), p) <==> |g[dir].body.ents| == 1
  {
    var ents := g[dir].body.ents;
    Entries0(g, dir);
    assert IndexOf(ents, name) < |ents|;
    hide Tree, Resolve, View, Child;
    forall x: Name
      ensures Parent(p) + [x] in View(g) <==> exists i :: 0 <= i < |ents| && ents[i].name == x
    {
      ViewNames(g, dir, Parent(p), x);
    }
    if |ents| > 1 {
      var i := if IndexOf(ents, name) == 0 then 1 else 0;
      assert ents[i].name != name;
      assert Parent(p) + [ents[i].name] in View(g);
    } else {
      assert ents == [ents[0]];
    }
  }

  /** What giving up inode n and its entry makes of a volume. */
  ghost predicate GivenUp(v: Vol, lk: set<nat>, v': Vol, own': Owners, lk': set<nat>, n: nat, dir: nat, name: Name)
  {
    && IsDir(GraphOf(v), dir) && Child(GraphOf(v), dir, name) == Some(n)
    && VolOk(v', own', lk')
    && GraphOf(v') == RemoveChild(GraphOf(v), dir, name)
    && lk <= lk' && |lk'| == |lk| + (if |GraphOf(v)[dir].body.ents| == 1 then 2 else 0)
    && !Live(v'.bm, n) && NodeAt(v'.blk, n).state == 0
  }

  /** What remove and rmdir make of the abstraction. */
  ghost predicate Gone(d: Disk, ns: NS, lk: set<nat>, p: Path)
    reads d, d.bits, d.blocks
  {
    && FsOk(d) && p != [] && Ns(d) == Without(ns, p)
    && lk <= d.lk && |d.lk| == |lk| + (if Alone(ns, p) then 2 else 0)
  }

  lemma GivenUpIsGone(d: Disk, v: Vol, lk: set<nat>, p: Path, n: nat, dir: nat, name: Name)
    requires Tree(GraphOf(v)) && Leads(GraphOf(v), p, n, dir, name)
    requires GraphOf(v)[n].body.File? || GraphOf(v)[n].body == Dir([])
    requires d.Sizes() && GivenUp(v, lk, d.Vol(), d.own, d.lk, n, dir, name)
    ensures Gone(d, View(GraphOf(v)), lk, p)
  {
    hide VolOk, Tree, GraphOf, View, Child, Without, RemoveChild, Alone;
    assert p != [] by { LeadsSome(GraphOf(v), p, n, dir, name); }
    RemovedView(GraphOf(v), p, n, dir, name);
    AloneIs(GraphOf(v), p, n, dir, name);
  }

  lemma LeadsSome(g: Graph, p: Path, n: nat, dir: nat, name: Name)
    requires Leads(g, p, n, dir, name)
    ensures p != []
  {
  }

  // ---------------------------------------------------------------- remove

  /** The file's blocks are free, and the volume counts as w, without the file; its entry still stands. */
  ghost predicate Unblocked(v: Vol, bm: seq<bool>, own: Owners, lk: set<nat>, n: nat, dir: nat, name: Name, w: Vol)
  {
    && |bm| == TOTAL_BLOCKS && n < NODE_TABLE_BLOCKS && w == Vol(bm[n + 2 := false], v.blk)
    && SameData(Vol(bm, v.blk), w) && VolOk(w, own, lk) && !Live(w.bm, n)
    && IsDir(GraphOf(v), dir) && Child(GraphOf(v), dir, name) == Some(n)
    && IsDir(GraphOf(w), dir) && Child(GraphOf(w), dir, name) == Some(n)
    && GraphOf(w)[dir].body.ents == GraphOf(v)[dir].body.ents
    && DropEntryOf(GraphOf(w), dir, name) == RemoveChild(GraphOf(v), dir, name)
    && n !in RemoveChild(GraphOf(v), dir, name)
  }

  lemma FileFreed(v: Vol, own: Owners, lk: set<nat>, n: nat, bm: seq<bool>, dir: nat, name: Name)
    requires VolOk(v, own, lk) && IsFile(v, n) && Cleared(v.bm, bm, BlocksOf(own, n))
    requires IsDir(GraphOf(v), dir) && Child(GraphOf(v), dir, name) == Some(n) && n != dir
    ensures n + 2 < |bm| && Unblocked(v, bm, own - BlocksOf(own, n), lk, n, dir, name, Vol(bm[n + 2 := false], v.blk))
  {
    assert Live(v.bm, n);
    hide VolOk, GraphOf, Cleared, BlocksOf, Live, NodeAt, SameData;
    DropFreed(v, own, lk, n, bm);
    WithoutEntry(GraphOf(v), dir, name, n);
    hide Child;
  }

  lemma WithoutEntry(g: Graph, dir: nat, name: Name, n: nat)
    requires IsDir(g, dir) && Child(g, dir, name) == Some(n) && n != dir
    ensures IsDir(g - {n}, dir) && Child(g - {n}, dir, name) == Some(n) && (g - {n})[dir] == g[dir]
    ensures DropEntryOf(g - {n}, dir, name) == RemoveChild(g, dir, name)
    ensures n !in RemoveChild(g, dir, name)
  {
    hide IndexOf, RemoveAt;
  }

  /** The first half of sac_remove: the file's blocks are freed. */
  method FreeFile(d: Disk, x: TNode, n: nat, ghost dir: nat, ghost name: Name) returns (ghost w: Vol)
    requires d.Ok() && IsFile(d.Vol(), n) && x.Val() == NodeAt(d.Vol().blk, n)
    requires IsDir(GraphOf(d.Vol()), dir) && Child(GraphOf(d.Vol()), dir, name) == Some(n) && n != dir
    modifies d`own, d.bits
    ensures d.Sizes() && d.Vol().blk == old(d.Vol()).blk
    ensures Unblocked(old(d.Vol()), d.Vol().bm, d.own, d.lk, n, dir, name, w)
    ensures Cleared(old(d.Vol()).bm, d.Vol().bm, BlocksOf(old(d.own), n))
  {
    hide *;
    ghost var v, own := d.Vol(), d.own;
    ReadyFile(d, x, n);
    FreeFileBlocks(d, x, n, TableOf(v));
    FileFreed(v, own, d.lk, n, d.Vol().bm, dir, name);
    d.own := own - BlocksOf(own, n);
    w := Vol(d.Vol().bm[n + 2 := false], v.blk);
  }

  lemma ReadyFile(d: Disk, x: TNode, n: nat)
    requires d.Ok() && IsFile(d.Vol(), n) && x.Val() == NodeAt(d.Vol().blk, n)
    ensures d.Sizes() && VolOk(d.Vol(), d.own, d.lk) && n in TableOf(d.Vol())
    ensures Holding(d, TableOf(d.Vol()), x, n) && |TableOf(d.Vol())[n].data| == BlockCount(x.Val())
  {
    hide VolOk, NodeAt, TableOf, BlockCount, NodeOk;
    ReadyCopy(d, x, n);
  }

  /** The entry is deleted too: the volume, but for the inode's bit, is the one without the file. */
  ghost predicate Unlisted(v: Vol, lk: set<nat>, bm: seq<bool>, blk: seq<Block>, own': Owners, lk': set<nat>, n: nat,
                           dir: nat, name: Name)
  {
    && |bm| == |blk| == TOTAL_BLOCKS && n < NODE_TABLE_BLOCKS
    && IsDir(GraphOf(v), dir) && Child(GraphOf(v), dir, name) == Some(n)
    && n !in RemoveChild(GraphOf(v), dir, name)
    && lk <= lk' && |lk'| == |lk| + (if |GraphOf(v)[dir].body.ents| == 1 then 2 else 0)
    && var w := Vol(bm[n + 2 := false], blk);
       VolOk(w, own', lk') && GraphOf(w) == RemoveChild(GraphOf(v), dir, name) && !Live(w.bm, n)
  }

  lemma EntryUnlisted(v: Vol, bm: seq<bool>, own: Owners, lk: set<nat>, n: nat, dir: nat, name: Name, w: Vol,
                      blk: seq<Block>, own': Owners, lk': set<nat>)
    requires Unblocked(v, bm, own, lk, n, dir, name, w) && EntryDeleted(w, lk, blk, own', lk', dir, name)
    ensures Unlisted(v, lk, bm, blk, own', lk', n, dir, name)
  {
    assert |blk| == TOTAL_BLOCKS;
    hide VolOk, GraphOf, Child, DropEntryOf, RemoveChild, OthersSame, SameData, Live;
  }

  lemma FileDropped(v: Vol, lk: set<nat>, bm: seq<bool>, blk: seq<Block>, own': Owners, lk': set<nat>, n: nat,
                    dir: nat, name: Name, x: Node)
    requires Unlisted(v, lk, bm, blk, own', lk', n, dir, name) && Fits(x) && x.state == 0
    ensures |bm| == |blk| == TOTAL_BLOCKS && n < NODE_TABLE_BLOCKS
    ensures GivenUp(v, lk, Vol(bm[n + 2 := false], blk[n + 2 := NodeToBlock(x)]), own', lk', n, dir, name)
  {
    hide VolOk, GraphOf, Child, NodeAt, NodeToBlock, BlockCount, RemoveChild, Live;
    NodeWritten(blk, n, x);
    DropEmpty(Vol(bm[n + 2 := false], blk), own', lk', n, NodeToBlock(x));
    assert bm[n + 2 := false][n + 2 := false] == bm[n + 2 := false];
    assert RemoveChild(GraphOf(v), dir, name) - {n} == RemoveChild(GraphOf(v), dir, name);
  }

  lemma ParentOf(v: Vol, n: nat)
    requires n in GraphOf(v)
    ensures NodeAt(v.blk, n).parent == GraphOf(v)[n].parent && Live(v.bm, n) && n < NODE_TABLE_BLOCKS
    ensures Fits(NodeAt(v.blk, n))
  {
    NodeAtFits(v.blk, n);
    hide ExtentOf, NodeAt, FileBytes, DirEntries;
  }

  lemma UnblockedHas(v: Vol, bm: seq<bool>, own: Owners, lk: set<nat>, n: nat, dir: nat, name: Name, w: Vol)
    requires Unblocked(v, bm, own, lk, n, dir, name, w)
    ensures SameData(Vol(bm, v.blk), w) && VolOk(w, own, lk) && IsDir(GraphOf(w), dir)
    ensures Child(GraphOf(w), dir, name).Some?
    ensures w.blk == v.blk
  {
    hide VolOk, GraphOf, Child, SameData, DropEntryOf, RemoveChild;
  }

  /** The second half of sac_remove: the entry goes from the directory the inode's parent field names, and
      then the inode. */
  method RemoveListed(d: Disk, x: TNode, n: nat, name: Name, ghost v: Vol, ghost w: Vol, ghost dir: nat)
    requires d.Sizes() && d.Vol().blk == v.blk && Unblocked(v, d.Vol().bm, d.own, d.lk, n, dir, name, w)
    requires Fits(x.Val()) && x.parent == dir + 2 && dir < NODE_TABLE_BLOCKS && name != []
    modifies d, d.bits, d.blocks, x
    ensures d.Sizes() && GivenUp(v, old(d.lk), d.Vol(), d.own, d.lk, n, dir, name)
    ensures n + 2 < |old(d.Vol()).bm| && d.Vol().bm == old(d.Vol()).bm[n + 2 := false]
  {
    hide *;
    Constants();
    ghost var bm, own, lk := d.Vol().bm, d.own, d.lk;
    UnblockedHas(v, bm, own, lk, n, dir, name, w);
    VolIs(d, bm, v.blk);
    var folder: nat := x.parent - NODE_TABLE_INITIAL_BLOCK;
    var parent := d.ReadNode(folder);
    DeleteEntryAndUnmap(d, parent, folder, name, w);
    EntryUnlisted(v, bm, own, lk, n, dir, name, w, d.Vol().blk, d.own, d.lk);
    GiveUpFile(d, x, n, v, lk, dir, name);
  }

  lemma VolIs(d: Disk, bm: seq<bool>, blk: seq<Block>)
    requires d.Vol().bm == bm && d.Vol().blk == blk
    ensures d.Vol() == Vol(bm, blk)
  {
  }

  method GiveUpFile(d: Disk, x: TNode, n: nat, ghost v: Vol, ghost lk: set<nat>, ghost dir: nat, ghost name: Name)
    requires d.Sizes() && Unlisted(v, lk, d.Vol().bm, d.Vol().blk, d.own, d.lk, n, dir, name) && Fits(x.Val())
    modifies d.bits, d.blocks, x
    ensures d.Sizes() && GivenUp(v, lk, d.Vol(), d.own, d.lk, n, dir, name)
    ensures n + 2 < |old(d.Vol()).bm| && d.Vol().bm == old(d.Vol()).bm[n + 2 := false]
  {
    hide VolOk, GraphOf, Child, NodeAt, NodeToBlock, Unlisted, GivenUp;
    FileDropped(v, lk, d.Vol().bm, d.Vol().blk, d.own, d.lk, n, dir, name, x.Val().(state := 0));
    x.state := 0;
    d.UnmapNode(x, n);
    FreeBlock(d, n + 2);
  }

  /** The bits that removing file n clears: those of its data blocks, of its pointer blocks and of its inode. */
  ghost function FileBits(v: Vol, n: nat): set<nat>
  {
    var f := ExtentOf(v.blk, NodeAt(v.blk, n));
    FirstBlocks(f, |f.ptrs|, |f.data|) + {n + 2}
  }

  lemma FileBitsAre(v: Vol, own: Owners, lk: set<nat>, n: nat, bm: seq<bool>)
    requires VolOk(v, own, lk) && IsFile(v, n) && Cleared(v.bm, bm, BlocksOf(own, n)) && n + 2 < |bm|
    ensures Cleared(v.bm, bm[n + 2 := false], FileBits(v, n))
  {
    hide VolOk, NodeAt, ExtentOf, TableOf, Cleared, BlocksOf, Sound, Linked, BlockCount, FirstBlocks, NodeOk;
    StoredIsLinked(v, own, lk, n);
    StoredLine(v, own, lk, n);
    AllBlocks(v.bm, TableOf(v), own, lk, n);
    ClearedLength(v.bm, bm, BlocksOf(own, n));
    ClearOne(v.bm, bm, BlocksOf(own, n), n + 2);
  }

  /** The body of sac_remove, from the copy just read of a file's inode. */
  method RemoveFile(d: Disk, x: TNode, n: nat, name: Name, ghost dir: nat)
    requires d.Ok() && IsFile(d.Vol(), n) && x.Val() == NodeAt(d.Vol().blk, n) && name != []
    requires var g := GraphOf(d.Vol());
             && IsDir(g, dir) && Child(g, dir, name) == Some(n) && n in g && g[n].parent == dir + 2
             && dir < NODE_TABLE_BLOCKS && n != dir
    modifies d, d.bits, d.blocks, x
    ensures d.Sizes() && GivenUp(old(d.Vol()), old(d.lk), d.Vol(), d.own, d.lk, n, dir, name)
    ensures Cleared(old(d.Vol()).bm, d.Vol().bm, FileBits(old(d.Vol()), n))
  {
    hide *;
    ghost var v, own, lk := d.Vol(), d.own, d.lk;
    ParentOf(v, n);
    DiskSound(d);
    assert x.parent == dir + 2 by { ValState(x); }
    ghost var w := FreeFile(d, x, n, dir, name);
    ghost var bm := d.Vol().bm;
    RemoveListed(d, x, n, name, v, w, dir);
    FileBitsAre(v, own, lk, n, bm);
  }

  /** A path that leads somewhere names a file or a directory, as the inode's state says. */
  lemma FoundItem(v: Vol, own: Owners, lk: set<nat>, path: PathStr, n: nat)
    requires VolOk(v, own, lk) && Tree(GraphOf(v)) && IsValidPath(path) && Resolve(GraphOf(v), Split(path)) == Some(n)
    ensures n < NODE_TABLE_BLOCKS && Live(v.bm, n)
    ensures NamesFile(View(GraphOf(v)), path) <==> NodeAt(v.blk, n).state == 1
    ensures NamesDir(View(GraphOf(v)), path) <==> NodeAt(v.blk, n).state == 2
    ensures n in GraphOf(v) && (NodeAt(v.blk, n).state == 1 <==> GraphOf(v)[n].body.File?)
  {
    hide VolOk, Tree, GraphOf, TableOf, View, Resolve, Split, NodeAt, NodeOk, Sound;
    ResolvedIsLive(GraphOf(v), Split(path));
    ViewAt(GraphOf(v), Split(path));
    ParentOf(v, n);
    FileObj(v, n);
    StateIs(v, own, lk, n);
  }

  lemma StateIs(v: Vol, own: Owners, lk: set<nat>, n: nat)
    requires VolOk(v, own, lk) && Live(v.bm, n)
    ensures NodeAt(v.blk, n).state == 1 || NodeAt(v.blk, n).state == 2
  {
    hide Sound, NodeAt;
  }

  /** A path that names nothing. */
  lemma FoundNothing(g: Graph, path: PathStr)
    requires Tree(g) && Resolve(g, Split(path)) == None
    ensures !NamesFile(View(g), path) && !NamesDir(View(g), path)
  {
    hide Tree, View, Resolve, Split;
    ViewAt(g, Split(path));
  }

  /** The file a path leads to has an entry in the directory its parent field names. */
  lemma FileLeads(v: Vol, own: Owners, lk: set<nat>, path: PathStr, n: nat) returns (dir: nat)
    requires VolOk(v, own, lk) && Tree(GraphOf(v)) && IsValidPath(path) && Resolve(GraphOf(v), Split(path)) == Some(n)
    requires NodeAt(v.blk, n).state == 1
    ensures |Split(path)| > 0 && IsFile(v, n)
    ensures Leads(GraphOf(v), Split(path), n, dir, Split(path)[|Split(path)| - 1])
    ensures n in GraphOf(v) && GraphOf(v)[n].body.File?
  {
    hide VolOk, Tree, GraphOf, View, Split, NodeAt;
    FoundItem(v, own, lk, path, n);
    RootIsLive(GraphOf(v));
    dir := PathLeads(GraphOf(v), Split(path));
  }

  lemma LeadsHas(g: Graph, p: Path, n: nat, dir: nat, name: Name)
    requires Leads(g, p, n, dir, name)
    ensures IsDir(g, dir) && Child(g, dir, name) == Some(n) && n in g && g[n].parent == dir + 2
    ensures dir < NODE_TABLE_BLOCKS && n != dir && name != [] && n < NODE_TABLE_BLOCKS
  {
    hide Child, Resolve;
  }

  /** sac_remove, once the path is found to lead to inode n. */
  method RemoveFound(d: Disk, path: PathStr, n: nat) returns (r: int)
    requires FsOk(d) && IsValidPath(path) && Resolve(GraphOf(d.Vol()), Split(path)) == Some(n)
    modifies d, d.bits, d.blocks
    ensures r == if NamesFile(old(Ns(d)), path) then 0 else -1
    ensures r == 0 ==> Gone(d, old(Ns(d)), old(d.lk), Split(path))
    ensures r != 0 ==> FsOk(d) && Ns(d) == old(Ns(d)) && d.lk == old(d.lk)
  {
    hide *;
    FsParts(d);
    ghost var v, lk := d.Vol(), d.lk;
    FoundItem(v, d.own, lk, path, n);
    var x := d.ReadNode(n);
    ValState(x);
    if x.state != 1 {
      d.UnmapRead(x, n);
      SameFs(d, v);
      r := -1;
    } else {
      ghost var dir := FileLeads(v, d.own, lk, path, n);
      var names := Split(path);
      LeadsHas(GraphOf(v), names, n, dir, names[|names| - 1]);
      RemoveFile(d, x, n, names[|names| - 1], dir);
      GivenUpIsGone(d, v, lk, names, n, dir, names[|names| - 1]);
      r := 0;
    }
  }

  lemma ValState(x: TNode)
    ensures x.Val().state == x.state && x.Val().size == x.size && x.Val().parent == x.parent && x.Val().ptrs == x.ptrs
  {
  }

  lemma SameFs(d: Disk, v: Vol)
    requires d.Sizes() && d.Vol() == v && VolOk(v, d.own, d.lk) && Tree(GraphOf(v))
    ensures FsOk(d) && Ns(d) == View(GraphOf(v))
  {
    hide VolOk, Tree, GraphOf, View;
  }

  lemma DomainWalk(d: Disk, path: PathStr)
    requires FsOk(d) && PathDomain(Ns(d), path) && IsValidPath(path)
    ensures Walkable(GraphOf(d.Vol()), Split(path))
  {
    hide VolOk, Tree, GraphOf, View, Split, Walkable, ClearWalk;
    ClearIsWalkable(GraphOf(d.Vol()), Split(path));
  }

  lemma GoneHas(d: Disk, ns: NS, lk: set<nat>, p: Path)
    requires Gone(d, ns, lk, p)
    ensures FsOk(d) && Ns(d) == Without(ns, p)
    ensures lk <= d.lk && |d.lk| == |lk| + if Alone(ns, p) then 2 else 0
  {
  }

  /** sac_remove. */
  method Remove(d: Disk, path: PathStr) returns (r: int)
    requires FsOk(d) && PathDomain(Ns(d), path)
    modifies d, d.bits, d.blocks
    ensures FsOk(d) && r == RemoveCode(old(Ns(d)), path) && Ns(d) == RemoveNext(old(Ns(d)), path)
    ensures old(d.lk) <= d.lk
    ensures |d.lk| == |old(d.lk)| + if r == 0 && Alone(old(Ns(d)), Split(path)) then 2 else 0
    ensures r == 0 || r == -1
    ensures r == 0 <==> IsValidPath(path) && Split(path) in old(Ns(d)) && old(Ns(d))[Split(path)].AFile?
    ensures r == 0 ==> Ns(d) == imap p | p in old(Ns(d)) && p != Split(path) :: old(Ns(d))[p]
    ensures r == -1 ==> Ns(d) == old(Ns(d))
  {
    hide FsOk, View, GraphOf, Resolve, Split, Walkable, PathDomain, NamesFile, Without, Alone, Gone;
    RemoveAnswer(Ns(d), path);
    r := -1;
    ghost var ns, lk := Ns(d), d.lk;
    if IsValidPath(path) {
      DomainWalk(d, path);
      var n := SearchPath(d, path);
      if n.Some? {
        r := RemoveFound(d, path, n.value);
        if r == 0 {
          GoneHas(d, ns, lk, Split(path));
        }
      } else {
        NothingThere(d, path);
      }
    } else {
      NotValid(ns, path);
    }
  }

  lemma NothingThere(d: Disk, path: PathStr)
    requires FsOk(d) && Resolve(GraphOf(d.Vol()), Split(path)) == None
    ensures !NamesFile(Ns(d), path) && !NamesDir(Ns(d), path)
  {
    hide VolOk, Tree, GraphOf, View, Split, Resolve, NamesFile, NamesDir;
    FoundNothing(GraphOf(d.Vol()), path);
  }

  lemma NotValid(ns: NS, path: PathStr)
    requires !IsValidPath(path)
    ensures !NamesFile(ns, path) && !NamesDir(ns, path)
  {
  }
}
