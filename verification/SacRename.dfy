/** sac_rename. */
module SacRename {
  import opened Bytes
  import opened Layout
  import opened Volume
  import opened Graph
  import opened GraphOps
  import opened Namespace
  import opened Abstract
  import opened Results
  import opened Paths
  import opened Inodes
  import opened Commits
  import opened DiskState
  import opened FreeSpace
  import opened FileCommit
  import opened FileStore
  import opened DirStore
  import opened Search
  import opened Creation
  import opened Removal
  import opened SacDirs
  import opened SacRemove
  import opened SacRmdir

  // ---------------------------------------------------------------- the parent field

  /** An inode is written back with another parent field. */
  lemma CommitParent(v: Vol, own: Owners, lk: set<nat>, n: nat, parent: nat)
    requires VolOk(v, own, lk) && n in GraphOf(v) && parent < 0x1_0000_0000
    ensures n < NODE_TABLE_BLOCKS && |v.blk| == TOTAL_BLOCKS
    ensures var x := NodeAt(v.blk, n).(parent := parent);
            && Fits(x)
            && var v' := Vol(v.bm, v.blk[n + 2 := NodeToBlock(x)]);
               && VolOk(v', own, lk)
               && GraphOf(v') == GraphOf(v)[n := Obj(parent, GraphOf(v)[n].body)]
  {
    hide Sound, Linked, NodeAt, NodeToBlock, TableOf, GraphOf, ObjOf, OnlyNode, NodesOk, BlockCount, NodeOk;
    ParentOf(v, n);
    StoredIsLinked(v, own, lk, n);
    var y := NodeAt(v.blk, n);
    var x, f := y.(parent := parent), TableOf(v)[n];
    var b := NodeToBlock(x);
    var v' := Vol(v.bm, v.blk[n + 2 := b]);
    OneBlockLocal(v, own, lk, n, b);
    OtherParentOk(y, parent);
    UnmapFrame(v.bm, v.blk, TableOf(v), own, lk, n, x.ptrs, n + 2, b);
    assert TableOf(v)[n := f] == TableOf(v);
    Commit(v, own, lk, v', own, lk, n, x, f);
    OtherParentObj(v, own, lk, n, v'.blk, parent);
  }

  lemma OtherParentOk(y: Node, parent: nat)
    requires NodeOk(y) && parent < 0x1_0000_0000
    ensures NodeOk(y.(parent := parent)) && BlockCount(y.(parent := parent)) == BlockCount(y)
  {
  }

  lemma OneBlockLocal(v: Vol, own: Owners, lk: set<nat>, n: nat, b: Block)
    requires VolOk(v, own, lk) && n < NODE_TABLE_BLOCKS
    ensures OnlyNode(v, own, Vol(v.bm, v.blk[n + 2 := b]), n)
  {
    hide TableOf, Sound, NodeAt;
    OwnersInRegion(v.bm, TableOf(v), own, lk);
  }

  lemma OtherParentObj(v: Vol, own: Owners, lk: set<nat>, n: nat, blk': seq<Block>, parent: nat)
    requires VolOk(v, own, lk) && Live(v.bm, n) && n in TableOf(v) && n in GraphOf(v)
    requires Linked(blk', NodeAt(v.blk, n).ptrs, TableOf(v)[n]) && DataSame(v.blk, blk', TableOf(v)[n])
    ensures ObjOf(blk', NodeAt(v.blk, n).(parent := parent)) == Obj(parent, GraphOf(v)[n].body)
  {
    hide Sound, Linked, NodeAt, TableOf, GraphOf, FileBytes, DirEntries, DataSame, NodesOk, BlockCount, ExtentOf,
      NodeOk;
    StoredIsLinked(v, own, lk, n);
    GraphAt(v, n);
    var y, f := NodeAt(v.blk, n), TableOf(v)[n];
    var x := y.(parent := parent);
    assert BlockCount(x) == BlockCount(y) by { SameCount(y, parent); }
    LinkedIsExtent(v.blk, y, f);
    LinkedIsExtent(blk', x, f);
    SameBytes(v.blk, blk', f, y.size);
  }

  lemma SameCount(y: Node, parent: nat)
    ensures BlockCount(y.(parent := parent)) == BlockCount(y)
  {
  }

  /** The volume with another parent field in one inode. */
  function ParentSet(v: Vol, n: nat, parent: nat): Vol
    requires n + 2 < |v.blk| && parent < 0x1_0000_0000
  {
    Vol(v.bm, v.blk[n + 2 := NodeToBlock(NodeAt(v.blk, n).(parent := parent))])
  }

  /** The end of sac_rename: the moved inode's parent field. */
  method SetParent(d: Disk, n: nat, parent: nat)
    requires d.Sizes() && n < NODE_TABLE_BLOCKS && parent < 0x1_0000_0000
    modifies d.blocks
    ensures d.Sizes() && d.Vol() == ParentSet(old(d.Vol()), n, parent)
    ensures old(d.Ok()) && n in old(GraphOf(d.Vol())) ==>
              && d.Ok()
              && GraphOf(d.Vol()) == old(GraphOf(d.Vol()))[n := Obj(parent, old(GraphOf(d.Vol()))[n].body)]
  {
    hide VolOk, GraphOf, NodeAt, NodeToBlock, Fits;
    if d.Ok() && n in GraphOf(d.Vol()) {
      CommitParent(d.Vol(), d.own, d.lk, n, parent);
    }
    ParentFits(d.Vol().blk, n, parent);
    var x := d.ReadNode(n);
    x.parent := parent;
    d.UnmapNode(x, n);
  }

  lemma ParentFits(blk: seq<Block>, n: nat, parent: nat)
    requires parent < 0x1_0000_0000
    ensures Fits(NodeAt(blk, n).(parent := parent))
  {
    hide BlockToNode;
  }

  /** Which leaves a directory that is too long as it is. */
  lemma StillTooLong(v: Vol, dir: nat, n: nat, parent: nat)
    requires TooLong(v, dir) && n + 2 < |v.blk| && parent < 0x1_0000_0000
    ensures TooLong(ParentSet(v, n, parent), dir)
  {
    hide NodeToBlock, BlockToNode, NodeAt;
    ParentFits(v.blk, n, parent);
    NodeWritten(v.blk, n, NodeAt(v.blk, n).(parent := parent));
    if dir != n {
      NodeElsewhere(v.blk, n, dir, NodeToBlock(NodeAt(v.blk, n).(parent := parent)));
    }
  }

  lemma NodeElsewhere(blk: seq<Block>, n: nat, m: nat, b: Block)
    requires n + 2 < |blk| && m != n
    ensures NodeAt(blk[n + 2 := b], m) == NodeAt(blk, m)
  {
    hide BlockToNode;
  }

  lemma SizesAre(d: Disk)
    requires d.Sizes()
    ensures |d.Vol().blk| == TOTAL_BLOCKS
  {
  }

  // ---------------------------------------------------------------- the graph steps

  /** The target directory has room: it does not hold the moved inode yet, or has just lost its entry. */
  lemma RoomToMove(g: Graph, d1: nat, name1: Name, d2: nat)
    requires Tree(g) && IsDir(g, d1) && IsDir(g, d2) && Child(g, d1, name1).Some?
    ensures var g1 := DropEntryOf(g, d1, name1);
            IsDir(g1, d2) && |g1[d2].body.ents| <= 30
  {
    ChildIs(g, d1, name1);
    var m := Child(g, d1, name1).value;
    NotOwnEntry(g, d1);
    NotOwnEntry(g, d2);
    AtMost32(g);
    RootIsLive(g);
    if d1 == d2 {
      EntriesBounded(g, d2, {0});
    } else {
      NotListedTwice(g, d1, name1, d2);
      EntriesBounded(g, d2, {0, m});
      assert |{0, m}| == 2;
    }
  }

  lemma AtMost32(g: Graph)
    requires Tree(g)
    ensures |g| <= 32
  {
    LiveCount(g.Keys, NODE_TABLE_BLOCKS);
  }

  lemma NotListedTwice(g: Graph, d1: nat, name1: Name, d2: nat)
    requires Tree(g) && IsDir(g, d1) && IsDir(g, d2) && d1 != d2 && Child(g, d1, name1).Some?
    ensures Child(g, d1, name1).value !in Ids(g[d2].body.ents)
  {
    var m := Child(g, d1, name1).value;
    ChildIs(g, d1, name1);
    hide Tree, Child;
    if m in Ids(g[d2].body.ents) {
      var i :| 0 <= i < |g[d2].body.ents| && g[d2].body.ents[i].id == m;
      EntryParent(g, d2, i);
    }
  }

  /** What the three steps of a move add up to. */
  lemma MoveSteps(g: Graph, d1: nat, name1: Name, d2: nat, name2: Name)
    requires Tree(g) && IsDir(g, d1) && IsDir(g, d2) && Child(g, d1, name1).Some?
    ensures Child(g, d1, name1).value in g
    ensures var g1, m := DropEntryOf(g, d1, name1), Child(g, d1, name1).value;
            && IsDir(g1, d2)
            && var g2 := SetEntries(g1, d2, g1[d2].body.ents + [Entry(name2, m)]);
               && m in g2
               && Move(g, d1, name1, d2, name2) == g2[m := Obj(d2 + 2, g2[m].body)]
    ensures Child(g, d1, name1).value < NODE_TABLE_BLOCKS
  {
    ChildIs(g, d1, name1);
    DirInTable(g, Child(g, d1, name1).value);
    hide Tree, Child, Resolve;
  }

  lemma CanMoveHas(g: Graph, d1: nat, name1: Name, d2: nat, name2: Name, dp1: Path, dp2: Path)
    requires CanMove(g, d1, name1, d2, name2, dp1, dp2)
    ensures IsDir(g, d1) && IsDir(g, d2) && Child(g, d1, name1).Some? && ValidName(name2) && Tree(g)
  {
    hide Tree, Child, Resolve, ValidName;
  }

  lemma DeletedIs(d: Disk, v: Vol, lk: set<nat>, dir: nat, name: Name)
    requires d.Sizes() && EntryDeleted(v, lk, d.Vol().blk, d.own, d.lk, dir, name) && d.Vol().bm == v.bm
    ensures d.Ok() && IsDir(GraphOf(v), dir) && Child(GraphOf(v), dir, name).Some?
    ensures GraphOf(d.Vol()) == DropEntryOf(GraphOf(v), dir, name)
    ensures lk <= d.lk && |d.lk| == |lk| + if |GraphOf(v)[dir].body.ents| == 1 then 2 else 0
  {
    assert d.Vol() == Vol(v.bm, d.Vol().blk);
    hide VolOk, GraphOf, Child, OthersSame, DropEntryOf;
  }

  /** The first part of sac_rename: the number of the old entry's inode is kept, and the entry goes. When there
      is none the number is 0, and the deletion of an entry with no name finds nothing. */
  method TakeEntry(d: Disk, dir: nat, name: Name) returns (m: nat)
    requires d.Ok() && IsDir(GraphOf(d.Vol()), dir) && dir < NODE_TABLE_BLOCKS && name != []
    modifies d, d.blocks
    ensures d.Sizes() && d.Vol().bm == old(d.Vol()).bm
    ensures var child := old(Child(GraphOf(d.Vol()), dir, name));
            if child.Some? then
              m == child.value && EntryDeleted(old(d.Vol()), old(d.lk), d.Vol().blk, d.own, d.lk, dir, name)
            else
              m == 0 && d.Vol() == old(d.Vol()) && d.own == old(d.own) && d.lk == old(d.lk)
  {
    hide *;
    DiskSound(d);
    SameDataRefl(d);
    var x := d.ReadNode(dir);
    var found := LookupCopy(d, x, dir, name);
    m := 0;
    if found.Some? {
      m := found.value;
      DeleteEntryAndUnmap(d, x, dir, name, d.Vol());
    } else {
      d.UnmapRead(x, dir);
    }
  }

  /** The second part: the new entry. */
  method PutEntryIn(d: Disk, dir: nat, name: Name, m: nat) returns (ok: bool)
    requires d.Ok() && IsDir(GraphOf(d.Vol()), dir) && dir < NODE_TABLE_BLOCKS && ValidName(name)
    requires m < NODE_TABLE_BLOCKS
    modifies d, d.bits, d.blocks
    ensures d.Sizes()
    ensures ok && |old(GraphOf(d.Vol()))[dir].body.ents| <= 30 ==>
              var g := old(GraphOf(d.Vol()));
              && d.Ok() && d.lk == old(d.lk)
              && GraphOf(d.Vol()) == SetEntries(g, dir, g[dir].body.ents + [Entry(name, m)])
    ensures ok && |old(GraphOf(d.Vol()))[dir].body.ents| > 30 ==> TooLong(d.Vol(), dir)
    ensures EntryPaid(ok, old(d.Vol()), dir, d.Vol().bm)
  {
    hide *;
    DiskSound(d);
    var x := d.ReadNode(dir);
    ok := AddEntryAndUnmap(d, x, dir, name, m);
  }

  /** What a finished move promises. */
  ghost predicate MoveDone(g: Graph, lk: set<nat>, g': Graph, lk': set<nat>, d1: nat, name1: Name, d2: nat, name2: Name)
  {
    && IsDir(g, d1) && Child(g, d1, name1).Some? && IsDir(g, d2) && Child(g, d1, name1).value in g
    && g' == Move(g, d1, name1, d2, name2)
    && lk <= lk' && |lk'| == |lk| + if |g[d1].body.ents| == 1 then 2 else 0
  }

  /** The two entries and the parent field, for any two directories and any names. When the old name has an
      entry the graph is moved; when it has none the root is entered under the new name. What results is a tree
      exactly when the move can be made. */
  method MoveEntry(d: Disk, d1: nat, name1: Name, d2: nat, name2: Name, ghost dp1: Path, ghost dp2: Path)
    returns (ok: bool)
    requires d.Ok() && RenameAsked(GraphOf(d.Vol()), d1, name1, d2, name2, dp1, dp2)
    modifies d, d.bits, d.blocks
    ensures ok <==> !(TargetBare(old(GraphOf(d.Vol())), d1, name1, d2) && Room(old(d.Vol()).bm) < 2)
    ensures ok ==> (d.Ok() <==> !Overfills(old(GraphOf(d.Vol())), d1, name1, d2))
    ensures ok && d.Ok() ==> RenamedTo(old(GraphOf(d.Vol())), GraphOf(d.Vol()), d1, name1, d2, name2)
    ensures ok ==>
              (d.Ok() && Tree(GraphOf(d.Vol())) <==> CanMove(old(GraphOf(d.Vol())), d1, name1, d2, name2, dp1, dp2))
    ensures ok && old(Child(GraphOf(d.Vol()), d1, name1)).Some? ==>
              MoveDone(old(GraphOf(d.Vol())), old(d.lk), GraphOf(d.Vol()), d.lk, d1, name1, d2, name2)
  {
    hide *;
    Constants();
    ghost var v, lk := d.Vol(), d.lk;
    ghost var g := GraphOf(v);
    DiskSound(d);
    AskedHas(g, d1, name1, d2, name2, dp1, dp2);
    if Child(g, d1, name1).Some? {
      MoveSteps(g, d1, name1, d2, name2);
      RoomToMove(g, d1, name1, d2);
      MovesNotOver(g, d1, name1, d2);
    } else {
      NoSource(g, d1, name1, d2, name2, dp1, dp2);
      EnterSteps(g, d2, name2);
    }
    var m := TakeEntry(d, d1, name1);
    if Child(g, d1, name1).Some? {
      DeletedIs(d, v, lk, d1, name1);
    } else {
      SameSound(d, v);
    }
    ghost var taken := d.Vol();
    ok := PutEntryIn(d, d2, name2, m);
    MoveFails(ok, g, d1, name1, d2, taken, d.Vol().bm, Room(v.bm));
    if ok {
      ghost var put := d.Vol();
      SizesAre(d);
      SetParent(d, m, d2 + NODE_TABLE_INITIAL_BLOCK);
      if Overfills(g, d1, name1, d2) {
        StillTooLong(put, d2, m, d2 + NODE_TABLE_INITIAL_BLOCK);
        TooLongIsWrong(d.Vol(), d2, d.own, d.lk);
        NotOk(d);
      } else {
        if Child(g, d1, name1).Some? {
          MoveIsDone(g, lk, GraphOf(d.Vol()), d.lk, d1, name1, d2, name2);
        }
        RenamedIs(g, GraphOf(d.Vol()), d1, name1, d2, name2);
        RenameExact(g, GraphOf(d.Vol()), d1, name1, d2, name2, dp1, dp2);
      }
    }
  }

  /** Without a source, the target directory may hold 31 entries, and then gets one more than it has room for. */
  ghost predicate Overfills(g: Graph, d1: nat, name1: Name, d2: nat)
  {
    Child(g, d1, name1) == None && IsDir(g, d2) && |g[d2].body.ents| > 30
  }

  lemma MovesNotOver(g: Graph, d1: nat, name1: Name, d2: nat)
    requires Child(g, d1, name1).Some?
    ensures !Overfills(g, d1, name1, d2)
  {
    hide Child;
  }

  lemma NoSource(g: Graph, d1: nat, name1: Name, d2: nat, name2: Name, dp1: Path, dp2: Path)
    requires Child(g, d1, name1) == None && IsDir(g, d2)
    ensures Overfills(g, d1, name1, d2) <==> |g[d2].body.ents| > 30
    ensures !CanMove(g, d1, name1, d2, name2, dp1, dp2)
  {
    hide Child, Tree, Resolve;
  }

  lemma NotOk(d: Disk)
    requires !VolOk(d.Vol(), d.own, d.lk)
    ensures !d.Ok()
  {
  }

  /** Once the old entry is gone, if there was one, the target directory is empty. */
  ghost predicate TargetBare(g: Graph, d1: nat, name1: Name, d2: nat)
  {
    if Child(g, d1, name1).Some? then TargetEmpty(g, d1, name1, d2) else IsDir(g, d2) && g[d2].body.ents == []
  }

  lemma MoveFails(ok: bool, g: Graph, d1: nat, name1: Name, d2: nat, v: Vol, bm: seq<bool>, room: nat)
    requires IsDir(g, d1) && IsDir(g, d2) && IsDir(GraphOf(v), d2) && Room(v.bm) == room && EntryPaid(ok, v, d2, bm)
    requires GraphOf(v) == if Child(g, d1, name1).Some? then DropEntryOf(g, d1, name1) else g
    ensures ok <==> !(TargetBare(g, d1, name1, d2) && room < 2)
  {
    hide GraphOf, Child, DropEntryOf, Room;
  }

  lemma EnterSteps(g: Graph, d: nat, name: Name)
    requires IsDir(g, d) && 0 in g
    ensures var g2 := SetEntries(g, d, g[d].body.ents + [Entry(name, 0)]);
            0 in g2 && RootEntered(g, d, name) == g2[0 := Obj(d + 2, g2[0].body)]
  {
  }

  lemma SameSound(d: Disk, v: Vol)
    requires d.Sizes() && d.Vol() == v && VolOk(v, d.own, d.lk)
    ensures d.Ok()
  {
  }

  lemma AskedHas(g: Graph, d1: nat, name1: Name, d2: nat, name2: Name, dp1: Path, dp2: Path)
    requires RenameAsked(g, d1, name1, d2, name2, dp1, dp2)
    ensures Tree(g) && IsDir(g, d1) && IsDir(g, d2) && ValidName(name2) && name1 != [] && 0 in g
    ensures d1 < NODE_TABLE_BLOCKS && d2 < NODE_TABLE_BLOCKS
  {
    RootIsLive(g);
    DirInTable(g, d1);
    DirInTable(g, d2);
    hide Tree, Resolve;
  }

  lemma RenamedIs(g: Graph, g': Graph, d1: nat, name1: Name, d2: nat, name2: Name)
    requires IsDir(g, d1) && IsDir(g, d2) && 0 in g && (Child(g, d1, name1).Some? ==> Child(g, d1, name1).value in g)
    requires if Child(g, d1, name1).Some? then g' == Move(g, d1, name1, d2, name2) else g' == RootEntered(g, d2, name2)
    ensures RenamedTo(g, g', d1, name1, d2, name2)
  {
    hide Child, Move, RootEntered;
  }

  /** Once the old entry is gone, the target directory is empty. */
  ghost predicate TargetEmpty(g: Graph, d1: nat, name1: Name, d2: nat)
  {
    && IsDir(g, d1) && Child(g, d1, name1).Some?
    && IsDir(DropEntryOf(g, d1, name1), d2) && DropEntryOf(g, d1, name1)[d2].body.ents == []
  }

  /** In the abstraction: the target's parent is empty, or holds only the source. */
  lemma TargetInNs(g: Graph, d1: nat, name1: Name, d2: nat, name2: Name, from: Path, to: Path)
    requires from != [] && to != [] && from == Parent(from) + [name1] && to == Parent(to) + [name2]
    requires MoveAsked(g, d1, name1, d2, name2, Parent(from), Parent(to))
    ensures TargetEmpty(g, d1, name1, d2) <==>
            EmptyDir(View(g), Parent(to)) || (Parent(to) == Parent(from) && Alone(View(g), from))
  {
    ResolveSnoc(g, Parent(from), name1);
    OneEntryLeft(g, d1, name1, d2);
    hide Tree, Child, View, DropEntryOf, Alone, EmptyDir, Resolve, TargetEmpty;
    EmptyIs(g, Parent(to), d2);
    if d1 == d2 {
      PathUnique(g, Parent(from), Parent(to));
      var dir := PathLeads(g, from);
      LeadsHas(g, from, Resolve(g, from).value, dir, name1);
      AloneIs(g, from, Resolve(g, from).value, d1, name1);
    }
  }

  lemma OneEntryLeft(g: Graph, d1: nat, name1: Name, d2: nat)
    requires IsDir(g, d1) && IsDir(g, d2) && Child(g, d1, name1).Some?
    ensures TargetEmpty(g, d1, name1, d2) <==> if d1 == d2 then |g[d1].body.ents| == 1 else g[d2].body.ents == []
    ensures g[d1].body.ents != []
  {
    hide IndexOf;
  }

  lemma MoveIsDone(g: Graph, lk: set<nat>, g': Graph, lk': set<nat>, d1: nat, name1: Name, d2: nat, name2: Name)
    requires IsDir(g, d1) && Child(g, d1, name1).Some? && IsDir(g, d2) && Child(g, d1, name1).value in g
    requires g' == Move(g, d1, name1, d2, name2)
    requires lk <= lk' && |lk'| == |lk| + if |g[d1].body.ents| == 1 then 2 else 0
    ensures MoveDone(g, lk, g', lk', d1, name1, d2, name2)
  {
    hide Child, Move;
  }

  // ---------------------------------------------------------------- the paths

  lemma RenameParts(ns: NS, from: PathStr, to: PathStr)
    requires RenamePaths(ns, from, to) && IsValidPath(from) && IsValidPath(to)
    ensures CreateDomain(ns, from) && CreateDomain(ns, to) && Creatable(from) && Creatable(to)
  {
    hide ClearWalk, Split, IsValidPath;
  }

  /** When both parents exist, a rename is asked for; and the move can be made exactly in the domain. */
  lemma RenameMoves(g: Graph, from: PathStr, to: PathStr, dirPath1: seq<byte>, name1: Name, dirPath2: seq<byte>,
                    name2: Name, d1: nat, d2: nat)
    requires Tree(g) && RenamePaths(View(g), from, to) && IsValidPath(from) && IsValidPath(to)
    requires ParentFacts(g, from, dirPath1, name1) && ParentFacts(g, to, dirPath2, name2)
    requires Split(from) != [] && Split(to) != []
    requires Resolve(g, Parent(Split(from))) == Some(d1) && Resolve(g, Parent(Split(to))) == Some(d2)
    ensures RenameAsked(g, d1, name1, d2, name2, Parent(Split(from)), Parent(Split(to)))
    ensures Child(g, d1, name1).Some? <==> Split(from) in View(g)
    ensures CanMove(g, d1, name1, d2, name2, Parent(Split(from)), Parent(Split(to))) <==>
            RenameDomain(View(g), from, to)
    ensures Split(from) == Parent(Split(from)) + [name1] && Split(to) == Parent(Split(to)) + [name2]
    ensures ParentsExist(View(g), from, to)
  {
    ChildIsPath(g, from, dirPath1, name1);
    ChildIsPath(g, to, dirPath2, name2);
    assert name1 != [];
    hide Tree, Resolve, Child, View, Split, ClearWalk, Walkable, IsValidPath, ValidName;
    if Split(to) == Split(from) {
      assert name2 == name1 && d2 == d1;
    }
    if d2 == d1 && name2 == name1 {
      PathUnique(g, Parent(Split(from)), Parent(Split(to)));
    }
  }

  /** While a number is free, or with a source, no directory is overfilled. */
  lemma NotOverfilled(g: Graph, from: PathStr, to: PathStr, d1: nat, name1: Name, d2: nat)
    requires Tree(g) && IsDir(g, d2) && (Child(g, d1, name1).Some? <==> Split(from) in View(g))
    requires Split(from) in View(g) || NewNumber(View(g)) < NODE_TABLE_BLOCKS
    ensures !Overfills(g, d1, name1, d2)
  {
    hide Tree, View, Split, Used, Child;
    if Split(from) !in View(g) {
      FirstFreeIsFree(View(g), 0);
      NumbersAre(g, NewNumber(View(g)));
      RoomForEntry(g, d2, NewNumber(View(g)));
    }
  }

  /** In the abstraction, where there is no source: the target's parent is empty. */
  lemma EnterInNs(g: Graph, d2: nat, from: Path, to: Path)
    requires Tree(g) && from != [] && to != [] && Resolve(g, Parent(to)) == Some(d2) && IsDir(g, d2) && from !in View(g)
    ensures g[d2].body.ents == [] <==>
            EmptyDir(View(g), Parent(to)) || (Parent(to) == Parent(from) && Alone(View(g), from))
  {
    hide Tree, View, Resolve;
    EmptyIs(g, Parent(to), d2);
    if Parent(to) == Parent(from) && Alone(View(g), from) {
      forall name: Name
        ensures Parent(to) + [name] !in View(g)
      {
        assert from == Parent(from) + [from[|from| - 1]];
      }
      assert EmptyDir(View(g), Parent(to));
    }
  }

  /** The abstraction after a move. */
  lemma MovedView(g: Graph, lk: set<nat>, g': Graph, lk': set<nat>, d1: nat, name1: Name, d2: nat, name2: Name,
                  from: Path, to: Path)
    requires from != [] && to != [] && from == Parent(from) + [name1] && to == Parent(to) + [name2]
    requires CanMove(g, d1, name1, d2, name2, Parent(from), Parent(to))
    requires MoveDone(g, lk, g', lk', d1, name1, d2, name2)
    ensures Tree(g') && View(g') == Renamed(View(g), from, to)
    ensures lk <= lk' && |lk'| == |lk| + if Alone(View(g), from) then 2 else 0
  {
    var m := Child(g, d1, name1).value;
    assert CanMove(g, d1, name1, d2, name2, Parent(from), Parent(to));
    ResolveSnoc(g, Parent(from), name1);
    hide Tree, Child, View, Renamed, Move, Alone;
    var dir := PathLeads(g, from);
    MoveTree(g, d1, name1, d2, name2, Parent(from), Parent(to));
    ViewMove(g, d1, name1, d2, name2, Parent(from), Parent(to));
    AloneIs(g, from, m, d1, name1);
  }

  /** What a rename has made of the disk: a file system, with the renamed namespace, exactly in the domain; and a
      sound volume in any case, unless there was no source and every number was in use. */
  ghost predicate RenameDone(d: Disk, ns: NS, lk: set<nat>, from: PathStr, to: PathStr)
    reads d, d.bits, d.blocks
    requires Creatable(from) && Creatable(to)
  {
    && (FsOk(d) <==> RenameDomain(ns, from, to))
    && (!ParentsExist(ns, from, to) || Split(from) in ns || NewNumber(ns) < NODE_TABLE_BLOCKS ==> d.Ok())
    && (RenameDomain(ns, from, to) ==>
          && Ns(d) == RenameNext(ns, from, to) && lk <= d.lk
          && |d.lk| == |lk| + if RenameCode(ns, from, to) == 0 && Alone(ns, Split(from)) then 2 else 0)
  }

  /** sac_rename for valid paths. */
  method RenameAt(d: Disk, from: PathStr, to: PathStr) returns (ok: bool, r: int)
    requires FsOk(d) && RenamePaths(Ns(d), from, to) && IsValidPath(from) && IsValidPath(to)
    modifies d, d.bits, d.blocks
    ensures Creatable(from) && Creatable(to)
    ensures ok <==> !RenameExits(old(Ns(d)), from, to, Room(old(d.Vol()).bm) < 2)
    ensures r == RenameCode(old(Ns(d)), from, to)
    ensures ok ==> RenameDone(d, old(Ns(d)), old(d.lk), from, to)
  {
    hide *;
    ghost var ns, lk := Ns(d), d.lk;
    RenameParts(ns, from, to);
    FsParts(d);
    ghost var v := d.Vol();
    var d1, name1, d2, name2;
    ghost var dirPath1, dirPath2;
    d1, name1, dirPath1 := FindParent(d, from);
    SameNs(d, v);
    d2, name2, dirPath2 := FindParent(d, to);
    SameNs(d, v);
    ok, r := true, -1;
    if d1.Some? && d2.Some? {
      FsParts(d);
      ghost var g := GraphOf(v);
      RenameMoves(g, from, to, dirPath1, name1, dirPath2, name2, d1.value, d2.value);
      AskedHas(g, d1.value, name1, d2.value, name2, Parent(Split(from)), Parent(Split(to)));
      if Split(from) in ns || NewNumber(ns) < NODE_TABLE_BLOCKS {
        NotOverfilled(g, from, to, d1.value, name1, d2.value);
      }
      ok := MoveEntry(d, d1.value, name1, d2.value, name2, Parent(Split(from)), Parent(Split(to)));
      r := 0;
      CodeIs(ns, from, to);
      MoveExits(g, d1.value, name1, d2.value, name2, from, to, Room(v.bm) < 2);
      if ok {
        MovedDone(d, g, lk, from, to, d1.value, name1, d2.value, name2);
      }
    } else {
      NoParents(ns, from, to);
      NoExit(ns, from, to, Room(v.bm) < 2);
      CodeIs(ns, from, to);
      NothingRenamed(d, ns, lk, from, to);
    }
  }

  lemma NoExit(ns: NS, from: PathStr, to: PathStr, full: bool)
    requires Creatable(from) && Creatable(to) && !ParentsExist(ns, from, to)
    ensures !RenameExits(ns, from, to, full)
  {
  }

  lemma CodeIs(ns: NS, from: PathStr, to: PathStr)
    requires Creatable(from) && Creatable(to)
    ensures RenameCode(ns, from, to) == if ParentsExist(ns, from, to) then 0 else -1
  {
    hide ParentsExist;
  }

  lemma NothingRenamed(d: Disk, ns: NS, lk: set<nat>, from: PathStr, to: PathStr)
    requires FsOk(d) && Ns(d) == ns && d.lk == lk && RenamePaths(ns, from, to) && !ParentsExist(ns, from, to)
    ensures Creatable(from) && Creatable(to) && RenameDone(d, ns, lk, from, to)
  {
    hide View, GraphOf, Tree, VolOk, Split, IsValidPath, ClearWalk, Alone, ParentsExist, Ns, NewNumber;
  }

  /** The disk after the two entries and the parent field, in the abstraction. */
  lemma MovedDone(d: Disk, g: Graph, lk: set<nat>, from: PathStr, to: PathStr, d1: nat, name1: Name, d2: nat,
                  name2: Name)
    requires Tree(g) && Creatable(from) && Creatable(to) && ParentsExist(View(g), from, to)
    requires Split(from) in View(g) || NewNumber(View(g)) < NODE_TABLE_BLOCKS ==> d.Ok()
    requires Split(from) != [] && Split(to) != []
    requires Split(from) == Parent(Split(from)) + [name1] && Split(to) == Parent(Split(to)) + [name2]
    requires CanMove(g, d1, name1, d2, name2, Parent(Split(from)), Parent(Split(to))) <==>
             RenameDomain(View(g), from, to)
    requires d.Ok() && Tree(GraphOf(d.Vol())) <==>
             CanMove(g, d1, name1, d2, name2, Parent(Split(from)), Parent(Split(to)))
    requires Child(g, d1, name1).Some? ==> MoveDone(g, lk, GraphOf(d.Vol()), d.lk, d1, name1, d2, name2)
    ensures RenameDone(d, View(g), lk, from, to)
  {
    hide *;
    FsOkIs(d);
    if RenameDomain(View(g), from, to) {
      CanMoveHas(g, d1, name1, d2, name2, Parent(Split(from)), Parent(Split(to)));
      MovedView(g, lk, GraphOf(d.Vol()), d.lk, d1, name1, d2, name2, Split(from), Split(to));
    }
    RenameDoneIs(d, View(g), lk, from, to);
  }

  lemma FsOkIs(d: Disk)
    ensures FsOk(d) <==> d.Ok() && Tree(GraphOf(d.Vol()))
    ensures Ns(d) == View(GraphOf(d.Vol()))
  {
    hide VolOk, Tree, GraphOf, View;
  }

  lemma RenameDoneIs(d: Disk, ns: NS, lk: set<nat>, from: PathStr, to: PathStr)
    requires Creatable(from) && Creatable(to) && ParentsExist(ns, from, to)
    requires Split(from) in ns || NewNumber(ns) < NODE_TABLE_BLOCKS ==> d.Ok()
    requires FsOk(d) <==> RenameDomain(ns, from, to)
    requires RenameDomain(ns, from, to) ==>
               && Ns(d) == Renamed(ns, Split(from), Split(to)) && lk <= d.lk
               && |d.lk| == |lk| + if Alone(ns, Split(from)) then 2 else 0
    ensures RenameDone(d, ns, lk, from, to)
  {
    hide FsOk, Ns, RenameDomain, Split, Renamed, Alone, Creatable, ParentsExist, VolOk, NewNumber;
  }

  lemma MoveExits(g: Graph, d1: nat, name1: Name, d2: nat, name2: Name, from: PathStr, to: PathStr, full: bool)
    requires Creatable(from) && Creatable(to) && ParentsExist(View(g), from, to)
    requires Split(from) != [] && Split(to) != []
    requires Split(from) == Parent(Split(from)) + [name1] && Split(to) == Parent(Split(to)) + [name2]
    requires RenameAsked(g, d1, name1, d2, name2, Parent(Split(from)), Parent(Split(to)))
    requires Child(g, d1, name1).Some? <==> Split(from) in View(g)
    ensures RenameExits(View(g), from, to, full) <==> TargetBare(g, d1, name1, d2) && full
  {
    hide Tree, Child, View, Split, IsValidPath, ValidName, Resolve, TargetEmpty, EmptyDir, Alone, RenameExits;
    if Child(g, d1, name1).Some? {
      TargetInNs(g, d1, name1, d2, name2, Split(from), Split(to));
    } else {
      EnterInNs(g, d2, Split(from), Split(to));
    }
    ExitsIs(View(g), from, to, full);
  }

  lemma SameNs(d: Disk, v: Vol)
    requires d.Vol() == v
    ensures Ns(d) == View(GraphOf(v))
  {
  }

  lemma ExitsIs(ns: NS, from: PathStr, to: PathStr, full: bool)
    requires Creatable(from) && Creatable(to) && ParentsExist(ns, from, to)
    ensures RenameExits(ns, from, to, full) <==>
            full && (EmptyDir(ns, Parent(Split(to))) ||
                     (Parent(Split(to)) == Parent(Split(from)) && Alone(ns, Split(from))))
  {
    hide EmptyDir, Alone, Split, IsValidPath;
  }

  lemma NoParents(ns: NS, from: PathStr, to: PathStr)
    requires Creatable(from) && Creatable(to) && Split(from) != [] && Split(to) != []
    requires Parent(Split(from)) !in ns || Parent(Split(to)) !in ns
    ensures !ParentsExist(ns, from, to)
  {
  }

  lemma PathsCreatable(ns: NS, from: PathStr, to: PathStr)
    requires RenamePaths(ns, from, to)
    ensures Creatable(from) && Creatable(to)
  {
    hide ClearWalk, Split, IsValidPath;
  }

  lemma DomainPaths(ns: NS, from: PathStr, to: PathStr)
    requires RenameDomain(ns, from, to)
    ensures RenamePaths(ns, from, to) && Creatable(from) && Creatable(to)
  {
    hide ClearWalk, Split, IsValidPath;
  }

  /** In the domain, a rename gives what the abstract one says. */
  lemma RenameDoneHas(d: Disk, ns: NS, lk: set<nat>, from: PathStr, to: PathStr)
    requires RenameDomain(ns, from, to) && Creatable(from) && Creatable(to) && RenameDone(d, ns, lk, from, to)
    ensures FsOk(d) && Ns(d) == RenameNext(ns, from, to) && lk <= d.lk
    ensures |d.lk| == |lk| + if RenameCode(ns, from, to) == 0 && Alone(ns, Split(from)) then 2 else 0
  {
    hide FsOk, Ns, Split, Alone, RenameDomain, RenameNext, RenameCode, VolOk, Creatable;
  }

  /** sac_rename, of any two paths whose ways are clear. The file system survives exactly in the domain, and is
      then renamed. */
  method Rename(d: Disk, from: PathStr, to: PathStr) returns (ok: bool, r: int)
    requires FsOk(d) && RenamePaths(Ns(d), from, to)
    modifies d, d.bits, d.blocks
    ensures Creatable(from) && Creatable(to)
    ensures ok <==> !RenameExits(old(Ns(d)), from, to, Room(old(d.Vol()).bm) < 2)
    ensures ok ==> r == RenameCode(old(Ns(d)), from, to) && RenameDone(d, old(Ns(d)), old(d.lk), from, to)
    ensures r == 0 || r == -1
    ensures r == 0 <==>
            && IsValidPath(from) && IsValidPath(to) && Split(from) != [] && Split(to) != []
            && Parent(Split(from)) in old(Ns(d)) && Parent(Split(to)) in old(Ns(d))
    ensures ok && r == -1 ==> FsOk(d) && Ns(d) == old(Ns(d))
    ensures ok ==> (FsOk(d) <==> RenameDomain(old(Ns(d)), from, to))
    ensures ok && r == 0 && FsOk(d) ==>
              var ns, ns', o, n := old(Ns(d)), Ns(d), Split(from), Split(to);
              && (forall rest: Path :: n + rest in ns' <==> o + rest in ns)
              && (forall rest: Path | o + rest in ns :: ns'[n + rest] == ns[o + rest])
              && (forall p: Path | !(n <= p) :: p in ns' <==> p in ns && !(o <= p))
              && (forall p: Path | !(n <= p) && p in ns && !(o <= p) :: ns'[p] == ns[p])
  {
    hide FsOk, View, GraphOf, Split, Renamed, Alone, RenameExits, Room;
    ghost var ns, lk := Ns(d), d.lk;
    PathsCreatable(ns, from, to);
    RenameCodeIs(ns, from, to);
    ok, r := true, -1;
    if IsValidPath(from) && IsValidPath(to) {
      ok, r := RenameAt(d, from, to);
    } else {
      NothingRenamed(d, ns, lk, from, to);
      NoExit(ns, from, to, Room(d.Vol().bm) < 2);
    }
    if ok {
      RenameDoneIff(d, ns, lk, from, to);
    }
  }

  /** The file system survives in the domain only, and what was at or below the old path is then at or below the
      new one. */
  lemma RenameDoneIff(d: Disk, ns: NS, lk: set<nat>, from: PathStr, to: PathStr)
    requires RenamePaths(ns, from, to) && Creatable(from) && Creatable(to) && RenameDone(d, ns, lk, from, to)
    ensures FsOk(d) <==> RenameDomain(ns, from, to)
    ensures FsOk(d) && RenameCode(ns, from, to) == 0 ==>
              var ns', o, n := Ns(d), Split(from), Split(to);
              && (forall rest: Path :: n + rest in ns' <==> o + rest in ns)
              && (forall rest: Path | o + rest in ns :: ns'[n + rest] == ns[o + rest])
              && (forall p: Path | !(n <= p) :: p in ns' <==> p in ns && !(o <= p))
              && (forall p: Path | !(n <= p) && p in ns && !(o <= p) :: ns'[p] == ns[p])
  {
    hide FsOk, Ns, Split, Alone, VolOk, Creatable, Renamed, IsValidPath, ClearWalk;
    if RenameDomain(ns, from, to) {
      RenameDoneHas(d, ns, lk, from, to);
      RenameAnswer(ns, from, to);
    }
  }
}
