/** The directory operations of sacio.c: mkdir, open. */
module SacDirs {
  import opened Bytes
  import opened Layout
  import opened Volume
  import opened Graph
  import opened GraphOps
  import opened Namespace
  import opened Abstract
  import opened Results
  import opened Paths
  import opened Inodes
  import opened DiskState
  import opened Bitmap
  import opened FreeSpace
  import opened DirStore
  import opened Search
  import opened Creation

  /** The abstraction of the volume. */
  ghost function Ns(d: Disk): NS
    reads d.bits, d.blocks
  {
    View(GraphOf(d.Vol()))
  }

  lemma ClearIsWalkable(g: Graph, p: Path)
    requires Tree(g) && ClearWalk(View(g), p)
    ensures Walkable(g, p)
  {
    hide Tree, Resolve;
    forall k: nat | k < |p| && Resolve(g, p[..k]).Some?
      ensures IsDir(g, Resolve(g, p[..k]).value)
    {
      assert p[..k] in View(g) by { ViewAt(g, p[..k]); }
      ViewAt(g, p[..k]);
    }
  }

  lemma PrefixWalkable(g: Graph, p: Path, k: nat)
    requires Walkable(g, p) && k <= |p|
    ensures Walkable(g, p[..k])
  {
    hide Resolve;
    forall j: nat | j < k && Resolve(g, p[..k][..j]).Some?
      ensures IsDir(g, Resolve(g, p[..k][..j]).value)
    {
      assert p[..k][..j] == p[..j];
    }
  }

  /** An empty directory, in the abstraction. */
  lemma EmptyIs(g: Graph, p: Path, n: nat)
    requires Tree(g) && Resolve(g, p) == Some(n) && IsDir(g, n)
    ensures EmptyDir(View(g), p) <==> g[n].body.ents == []
  {
    hide Tree, Resolve, View;
    var ents := g[n].body.ents;
    forall x: Name
      ensures p + [x] in View(g) <==> exists i :: 0 <= i < |ents| && ents[i].name == x
    {
      ViewNames(g, n, p, x);
    }
    if ents != [] {
      assert p + [ents[0].name] in View(g);
    }
  }

  /** The numbers used in the abstraction are those of the live inodes. */
  lemma NumbersAre(g: Graph, n: nat)
    requires Tree(g)
    ensures Used(View(g), n) <==> n in g
  {
    hide Tree, Resolve, View;
    if n in g {
      var p := PathTo(g, n);
      ViewAt(g, p);
      assert p in View(g) && View(g)[p].ino == n;
    }
    if Used(View(g), n) {
      var p := PathOf(View(g), n);
      ViewAt(g, p);
    }
  }

  lemma {:induction false} FirstFreeIs(g: Graph, from: nat, n: nat)
    requires Tree(g) && from <= n <= NODE_TABLE_BLOCKS
    requires (forall m: nat | m < n :: m in g) && (n < NODE_TABLE_BLOCKS ==> n !in g)
    ensures FirstFree(View(g), from) == n
    decreases n - from
  {
    hide Tree, View, Used;
    if from < NODE_TABLE_BLOCKS {
      NumbersAre(g, from);
    }
    if from < n {
      FirstFreeIs(g, from + 1, n);
    }
  }

  /** What a new inode with its entry does to the abstraction. */
  lemma Created(g: Graph, dir: nat, name: Name, n: nat, state: byte, dp: Path)
    requires CanAdd(g, dir, name, n, EmptyBody(state)) && Resolve(g, dp) == Some(dir)
    ensures Tree(AddChild(g, dir, name, n, EmptyBody(state)))
    ensures View(AddChild(g, dir, name, n, EmptyBody(state))) == View(g)[dp + [name] := ItemOf(n, EmptyBody(state))]
  {
    hide CanAdd, AddChild, View, Tree, Resolve;
    CanAddHas(g, dir, name, n, EmptyBody(state));
    AddChildTree(g, dir, name, n, EmptyBody(state));
    ViewAdd(g, dir, name, n, EmptyBody(state), dp);
  }

  lemma CanAddHas(g: Graph, dir: nat, name: Name, n: nat, body: Body)
    requires CanAdd(g, dir, name, n, body)
    ensures n !in g && n < NODE_TABLE_BLOCKS && IsDir(g, dir)
  {
    hide Tree, Child;
  }

  /** No inode is free; or the directory is empty and there is no block for its first entry. */
  ghost predicate NoRoom(g: Graph, dir: nat, full: bool)
  {
    (forall m: nat | m < NODE_TABLE_BLOCKS :: m in g) || (full && IsDir(g, dir) && g[dir].body.ents == [])
  }

  lemma NoNodes(g: Graph, dir: nat, full: bool)
    requires forall m: nat | m < NODE_TABLE_BLOCKS :: m in g
    ensures NoRoom(g, dir, full)
  {
  }

  /** With a free inode, making its entry fails exactly when the directory is empty and there is no room. */
  lemma EntryFails(ok: bool, g: Graph, dir: nat, n: nat, v: Vol, bm: seq<bool>, room: nat)
    requires IsDir(g, dir) && n !in g && n < NODE_TABLE_BLOCKS && Room(v.bm) == room
    requires IsDir(GraphOf(v), dir) && GraphOf(v)[dir] == g[dir] && EntryPaid(ok, v, dir, bm)
    ensures ok <==> !NoRoom(g, dir, room < 2)
  {
    hide GraphOf, Room;
  }

  lemma BelowLive(v: Vol, n: nat)
    requires |v.bm| == TOTAL_BLOCKS && n <= NODE_TABLE_BLOCKS && Full(v.bm, NODE_TABLE_INITIAL_BLOCK, n + 2)
    ensures forall m: nat | m < n :: m in GraphOf(v)
  {
    hide ObjOf, NodeAt;
    forall m: nat | m < n
      ensures m in GraphOf(v)
    {
      assert v.bm[m + 2];
      LiveInGraph(v, m);
    }
  }

  lemma AllLive(d: Disk)
    requires d.Sizes() && NodesFull(d)
    ensures forall m: nat | m < NODE_TABLE_BLOCKS :: m in GraphOf(d.Vol())
  {
    hide GraphOf;
    BelowLive(d.Vol(), NODE_TABLE_BLOCKS);
  }

  /** A new inode of the given state, with its entry in the directory whose copy is x. */
  method CreateIn(d: Disk, x: TNode, dir: nat, name: Name, state: byte, now: nat) returns (ok: bool, n: nat)
    requires FsOk(d) && IsDir(GraphOf(d.Vol()), dir) && x.Val() == NodeAt(d.Vol().blk, dir)
    requires Child(GraphOf(d.Vol()), dir, name) == None && ValidName(name)
    requires (state == 1 || state == 2) && now < 0x1_0000_0000_0000_0000
    modifies d, d.bits, d.blocks, x
    ensures ok <==> !NoRoom(old(GraphOf(d.Vol())), dir, Room(old(d.Vol()).bm) < 2)
    ensures ok ==> d.Ok() && d.lk == old(d.lk) && CanAdd(old(GraphOf(d.Vol())), dir, name, n, EmptyBody(state))
    ensures ok ==> forall m: nat | m < n :: m in old(GraphOf(d.Vol()))
    ensures ok ==> GraphOf(d.Vol()) == AddChild(old(GraphOf(d.Vol())), dir, name, n, EmptyBody(state))
  {
    hide *;
    ghost var g, blk, v := GraphOf(d.Vol()), d.Vol().blk, d.Vol();
    FsParts(d);
    DirIsLive(g, dir);
    NameFits(name);
    ok, n := MakeNode(d, state, name, dir, now);
    if ok {
      BelowLive(v, n);
      RoomForEntry(g, dir, n);
      DiskSound(d);
      VolSizes(d.Vol(), d.own, d.lk);
      SameNodeAt(blk, d.Vol().blk, dir, n);
      AfterMake(g, dir, name, n, state);
      ghost var made := d.Vol();
      ok := AddEntryAndUnmap(d, x, dir, name, n);
      EntryFails(ok, g, dir, n, made, d.Vol().bm, Room(v.bm));
      if ok {
        CanAddIs(g, dir, name, n, state);
      }
    } else {
      AllLive(d);
      NoNodes(g, dir, Room(v.bm) < 2);
    }
  }

  lemma FsParts(d: Disk)
    requires FsOk(d)
    ensures d.Ok() && d.Sizes() && VolOk(d.Vol(), d.own, d.lk) && Tree(GraphOf(d.Vol()))
    ensures |d.Vol().bm| == |d.Vol().blk| == TOTAL_BLOCKS && Ns(d) == View(GraphOf(d.Vol()))
  {
    hide GraphOf, Tree, TableOf, Sound, View;
  }

  lemma DirIsLive(g: Graph, dir: nat)
    requires Tree(g) && IsDir(g, dir)
    ensures dir in g && dir < NODE_TABLE_BLOCKS
  {
    DirInTable(g, dir);
    hide Tree;
  }

  lemma NameFits(name: Name)
    requires ValidName(name)
    ensures 1 <= |name| <= 70 && name != []
  {
  }

  lemma CanAddIs(g: Graph, dir: nat, name: Name, n: nat, state: byte)
    requires Tree(g) && IsDir(g, dir) && Child(g, dir, name) == None && ValidName(name) && n !in g
    requires n < NODE_TABLE_BLOCKS
    ensures CanAdd(g, dir, name, n, EmptyBody(state))
  {
    hide Tree, Child, ValidName;
  }

  lemma SameNodeAt(blk: seq<Block>, blk': seq<Block>, m: nat, n: nat)
    requires |blk| == |blk'| == TOTAL_BLOCKS && m != n && m < NODE_TABLE_BLOCKS
    requires forall b | 0 <= b < TOTAL_BLOCKS && b != n + 2 :: blk'[b] == blk[b]
    ensures NodeAt(blk', m) == NodeAt(blk, m)
  {
  }

  lemma AfterMake(g: Graph, dir: nat, name: Name, n: nat, state: byte)
    requires IsDir(g, dir) && n !in g
    ensures n != dir
    ensures var g1 := g[n := Obj(dir + 2, EmptyBody(state))];
            && IsDir(g1, dir) && g1[dir] == g[dir]
            && SetEntries(g1, dir, g1[dir].body.ents + [Entry(name, n)]) == AddChild(g, dir, name, n, EmptyBody(state))
  {
  }

  lemma DirInTable(g: Graph, dir: nat)
    requires Tree(g) && dir in g
    ensures dir < NODE_TABLE_BLOCKS
  {
  }

  /** The facts about the directory part of a path. */
  ghost predicate ParentFacts(g: Graph, path: PathStr, dirPath: seq<byte>, name: Name)
  {
    var p := Split(path);
    && |p| > 0 && p == Parent(p) + [name] && ValidName(name)
    && 0 !in dirPath && Split(dirPath) == Parent(p) && Walkable(g, Parent(p))
    && (Parent(p) in View(g) <==> Resolve(g, Parent(p)).Some?)
    && (Resolve(g, Parent(p)).Some? ==> IsDir(g, Resolve(g, Parent(p)).value))
  }

  /** A valid path without its last name, and without the slash before it too if slash is 1. */
  function DirPath(path: PathStr, name: Name, slash: nat): seq<byte>
    requires |name| + slash <= |path|
  {
    path[..|path| - |name| - slash]
  }

  lemma DirPathIs(path: PathStr, slash: nat)
    requires IsValidPath(path) && Creatable(path) && slash <= 1
    ensures |Split(path)| > 0
    ensures var name := Split(path)[|Split(path)| - 1];
            && |name| + slash <= |path| && ValidName(name)
            && Split(DirPath(path, name, slash)) == Parent(Split(path))
  {
    LastName(path);
    var name := Split(path)[|Split(path)| - 1];
    if slash == 0 {
      assert DirPath(path, name, slash) == path[..|path| - |name|];
    } else {
      assert DirPath(path, name, slash) == path[..|path| - |name| - 1];
    }
  }

  lemma NoNul(path: PathStr, name: Name, slash: nat)
    requires |name| + slash <= |path|
    ensures 0 !in DirPath(path, name, slash)
  {
    assert forall i | 0 <= i < |DirPath(path, name, slash)| :: DirPath(path, name, slash)[i] == path[i];
  }

  lemma ParentIs(g: Graph, path: PathStr, slash: nat)
    requires Tree(g) && CreateDomain(View(g), path) && IsValidPath(path) && slash <= 1
    ensures |Split(path)| > 0
    ensures var name := Split(path)[|Split(path)| - 1];
            |name| + slash <= |path| && ParentFacts(g, path, DirPath(path, name, slash), name)
  {
    hide Tree, Resolve, Split, View, Walkable, ClearWalk, IsValidPath, ValidName, DirPath;
    DirPathIs(path, slash);
    var p := Split(path);
    NoNul(path, p[|p| - 1], slash);
    ParentWalk(g, p);
  }

  lemma ParentSplit(g: Graph, path: PathStr, dirPath: seq<byte>, name: Name)
    requires ParentFacts(g, path, dirPath, name)
    ensures Split(path) != [] && 0 !in dirPath && Split(dirPath) == Parent(Split(path)) && Walkable(g, Split(dirPath))
    ensures Parent(Split(path)) in View(g) <==> Resolve(g, Parent(Split(path))).Some?
  {
    hide Split, Resolve, View, Walkable;
  }

  lemma ParentWalk(g: Graph, p: Path)
    requires Tree(g) && ClearWalk(View(g), p) && |p| > 0
    ensures Walkable(g, Parent(p))
    ensures Parent(p) in View(g) <==> Resolve(g, Parent(p)).Some?
    ensures Resolve(g, Parent(p)).Some? ==> IsDir(g, Resolve(g, Parent(p)).value)
  {
    ClearIsWalkable(g, p);
    PrefixWalkable(g, p, |p| - 1);
    ViewAt(g, Parent(p));
    hide Tree, Resolve, View;
    if Resolve(g, Parent(p)).Some? {
      WalksTo(g, p, |p| - 1);
    }
  }

  /** What mkdir and rename learn of a valid path before they touch an entry: its last name, and the inode
      of the directory that should hold it. The directory's path is the path without the name. */
  method FindParent(d: Disk, path: PathStr) returns (dir: Option<nat>, name: Name, ghost dirPath: seq<byte>)
    requires FsOk(d) && CreateDomain(Ns(d), path) && IsValidPath(path)
    modifies d.blocks
    ensures d.Vol() == old(d.Vol())
    ensures FsOk(d) && ParentFacts(GraphOf(d.Vol()), path, dirPath, name)
    ensures Split(path) != [] && dir == Resolve(GraphOf(d.Vol()), Parent(Split(path)))
    ensures dir.Some? <==> Parent(Split(path)) in Ns(d)
  {
    hide *;
    FsParts(d);
    ParentIs(GraphOf(d.Vol()), path, 0);
    name := Split(path)[|Split(path)| - 1];
    var folder := DirPath(path, name, 0);
    dirPath := folder;
    ParentSplit(GraphOf(d.Vol()), path, folder, name);
    dir := SearchPath(d, folder);
    FsParts(d);
  }

  /** The same for open, whose directory path also drops the slash. */
  method FindFolder(d: Disk, path: PathStr) returns (dir: Option<nat>, name: Name, ghost dirPath: seq<byte>)
    requires FsOk(d) && CreateDomain(Ns(d), path) && IsValidPath(path)
    modifies d.blocks
    ensures d.Vol() == old(d.Vol())
    ensures FsOk(d) && ParentFacts(GraphOf(d.Vol()), path, dirPath, name)
    ensures Split(path) != [] && dir == Resolve(GraphOf(d.Vol()), Parent(Split(path)))
    ensures dir.Some? <==> Parent(Split(path)) in Ns(d)
  {
    hide *;
    FsParts(d);
    ParentIs(GraphOf(d.Vol()), path, 1);
    name := Split(path)[|Split(path)| - 1];
    var folder := DirPath(path, name, 1);
    dirPath := folder;
    ParentSplit(GraphOf(d.Vol()), path, folder, name);
    dir := SearchPath(d, folder);
    FsParts(d);
  }

  /** create_and_save_file_node, and the same steps of sac_mkdir: the entry of the name if there is one,
      and otherwise a new inode with its entry. */
  method MakeOrFind(d: Disk, dir: nat, name: Name, state: byte, now: nat) returns (ok: bool, found: Option<nat>, n: nat)
    requires FsOk(d) && IsDir(GraphOf(d.Vol()), dir) && ValidName(name)
    requires (state == 1 || state == 2) && now < 0x1_0000_0000_0000_0000
    modifies d, d.bits, d.blocks
    ensures ok <==> found.Some? || !NoRoom(old(GraphOf(d.Vol())), dir, Room(old(d.Vol()).bm) < 2)
    ensures found.None? && ok ==> forall m: nat | m < n :: m in old(GraphOf(d.Vol()))
    ensures found == Child(old(GraphOf(d.Vol())), dir, name)
    ensures found.Some? ==> ok && n == found.value
    ensures found.Some? ==> d.Vol() == old(d.Vol()) && d.own == old(d.own) && d.lk == old(d.lk)
    ensures found.None? && ok ==> d.Ok() && d.lk == old(d.lk)
    ensures found.None? && ok ==> CanAdd(old(GraphOf(d.Vol())), dir, name, n, EmptyBody(state))
    ensures found.None? && ok ==> GraphOf(d.Vol()) == AddChild(old(GraphOf(d.Vol())), dir, name, n, EmptyBody(state))
  {
    hide *;
    FsParts(d);
    DirIsLive(GraphOf(d.Vol()), dir);
    NameFits(name);
    var x := d.ReadNode(dir);
    found := LookupCopy(d, x, dir, name);
    if found.Some? {
      ok, n := true, found.value;
      d.UnmapRead(x, dir);
    } else {
      ok, n := CreateIn(d, x, dir, name, state, now);
    }
  }

  /** A name in the parent is the whole path. */
  lemma ChildIsPath(g: Graph, path: PathStr, dirPath: seq<byte>, name: Name)
    requires Tree(g) && ParentFacts(g, path, dirPath, name)
    ensures var p := Split(path);
            && Resolve(g, p) ==
               (if Resolve(g, Parent(p)).Some? then Child(g, Resolve(g, Parent(p)).value, name) else None)
            && (p in View(g) <==> Resolve(g, p).Some?)
  {
    ResolveSnoc(g, Parent(Split(path)), name);
    ViewAt(g, Split(path));
    hide Tree, Resolve, Split, View, Walkable, Child;
  }

  /** What MakeOrFind in the parent makes of the abstraction. */
  lemma MadeOrFound(g: Graph, g': Graph, path: PathStr, dirPath: seq<byte>, name: Name, n: nat, state: byte)
    requires Tree(g) && ParentFacts(g, path, dirPath, name) && Resolve(g, Parent(Split(path))).Some?
    requires var dir := Resolve(g, Parent(Split(path))).value;
             if Child(g, dir, name).Some? then g' == g && n == Child(g, dir, name).value
             else CanAdd(g, dir, name, n, EmptyBody(state)) && g' == AddChild(g, dir, name, n, EmptyBody(state))
    ensures Tree(g')
    ensures View(g') == if Split(path) in View(g) then View(g) else View(g)[Split(path) := ItemOf(n, EmptyBody(state))]
    ensures Resolve(g', Split(path)) == Some(n)
  {
    ChildIsPath(g, path, dirPath, name);
    hide Tree, Resolve, Split, View, Walkable, Child, CanAdd, AddChild, EmptyBody;
    var p := Split(path);
    var dir := Resolve(g, Parent(p)).value;
    if Child(g, dir, name).None? {
      Created(g, dir, name, n, state, Parent(p));
      NewPathResolves(g, dir, name, n, EmptyBody(state), Parent(p));
    }
  }

  lemma NewPathResolves(g: Graph, dir: nat, name: Name, n: nat, body: Body, dp: Path)
    requires CanAdd(g, dir, name, n, body) && Resolve(g, dp) == Some(dir)
    ensures Resolve(AddChild(g, dir, name, n, body), dp + [name]) == Some(n)
  {
    ResolveAfterAdd(g, dir, name, n, body, dp, dp + [name]);
    AfterAddIs(g, n, dp + [name], dp + [name]);
  }

  /** The part of sac_mkdir and sac_open that follows the search for the directory. */
  method EnterInto(d: Disk, path: PathStr, dir: nat, name: Name, state: byte, now: nat, ghost dirPath: seq<byte>)
    returns (ok: bool, existed: bool, n: nat)
    requires FsOk(d) && ParentFacts(GraphOf(d.Vol()), path, dirPath, name)
    requires Resolve(GraphOf(d.Vol()), Parent(Split(path))) == Some(dir)
    requires (state == 1 || state == 2) && now < 0x1_0000_0000_0000_0000
    modifies d, d.bits, d.blocks
    ensures ok <==> existed || !NoRoomAt(old(Ns(d)), Parent(Split(path)), Room(old(d.Vol()).bm) < 2)
    ensures existed <==> Split(path) in old(Ns(d))
    ensures ok ==> n == if existed then old(Ns(d))[Split(path)].ino else NewNumber(old(Ns(d)))
    ensures existed ==> ok && d.Vol() == old(d.Vol()) && d.own == old(d.own)
    ensures ok ==> FsOk(d) && d.lk == old(d.lk) && Resolve(GraphOf(d.Vol()), Split(path)) == Some(n)
    ensures ok && !existed ==> Ns(d) == old(Ns(d))[Split(path) := ItemOf(n, EmptyBody(state))]
  {
    hide *;
    ghost var g, v := GraphOf(d.Vol()), d.Vol();
    FsParts(d);
    ParentHas(g, path, dirPath, name, dir);
    ChildIsPath(g, path, dirPath, name);
    var found;
    ok, found, n := MakeOrFind(d, dir, name, state, now);
    existed := found.Some?;
    NoRoomInNs(g, Parent(Split(path)), dir, Room(v.bm) < 2);
    if ok {
      if existed {
        FoundNumber(g, Split(path), n);
        OkAgain(d, v);
      } else {
        CanAddHas(g, dir, name, n, EmptyBody(state));
        FirstFreeIs(g, 0, n);
        NewNumberIs(View(g));
      }
      MadeOrFound(g, GraphOf(d.Vol()), path, dirPath, name, n, state);
      FsNow(d);
    }
  }

  /** In the abstraction: no number is free, or the directory is empty and there is no block for its first
      entry. */
  ghost predicate NoRoomAt(ns: NS, p: Path, full: bool)
  {
    NewNumber(ns) == NODE_TABLE_BLOCKS || (full && EmptyDir(ns, p))
  }

  lemma NoRoomInNs(g: Graph, p: Path, dir: nat, full: bool)
    requires Tree(g) && Resolve(g, p) == Some(dir) && IsDir(g, dir)
    ensures NoRoomAt(View(g), p, full) <==> NoRoom(g, dir, full)
  {
    hide Tree, Resolve, View, FirstFree, Used;
    EmptyIs(g, p, dir);
    FirstFreeIsFree(View(g), 0);
    if forall m: nat | m < NODE_TABLE_BLOCKS :: m in g {
      FirstFreeIs(g, 0, NODE_TABLE_BLOCKS);
    }
    forall m: nat | m < NODE_TABLE_BLOCKS
      ensures Used(View(g), m) <==> m in g
    {
      NumbersAre(g, m);
    }
  }

  lemma NewNumberIs(ns: NS)
    ensures NewNumber(ns) == FirstFree(ns, 0)
  {
  }

  lemma FoundNumber(g: Graph, p: Path, n: nat)
    requires Tree(g) && Resolve(g, p) == Some(n)
    ensures p in View(g) && View(g)[p].ino == n
  {
    hide Tree, View;
    ViewAt(g, p);
  }

  lemma ParentHas(g: Graph, path: PathStr, dirPath: seq<byte>, name: Name, dir: nat)
    requires ParentFacts(g, path, dirPath, name) && Resolve(g, Parent(Split(path))) == Some(dir)
    ensures IsDir(g, dir) && ValidName(name) && Split(path) != []
  {
    hide Resolve, Split, View, Walkable, ValidName;
  }

  lemma OkAgain(d: Disk, v: Vol)
    requires d.Sizes() && d.Vol() == v && VolOk(v, d.own, d.lk)
    ensures d.Ok()
  {
  }

  lemma FsNow(d: Disk)
    requires d.Ok() && Tree(GraphOf(d.Vol()))
    ensures FsOk(d) && Ns(d) == View(GraphOf(d.Vol()))
  {
    hide VolOk, Tree, GraphOf, View;
  }

  /** sac_mkdir, for a valid path. */
  method MkdirAt(d: Disk, path: PathStr, now: nat) returns (ok: bool, made: bool)
    requires FsOk(d) && CreateDomain(Ns(d), path) && IsValidPath(path) && now < 0x1_0000_0000_0000_0000
    modifies d, d.bits, d.blocks
    ensures ok <==> !CreateExits(old(Ns(d)), path, Room(old(d.Vol()).bm) < 2)
    ensures ok ==> FsOk(d) && d.lk == old(d.lk)
    ensures ok ==> (made <==> IsNew(old(Ns(d)), path))
    ensures ok ==> Ns(d) == MkdirNext(old(Ns(d)), path)
  {
    hide FsOk, GraphOf, Resolve, Split, View, Room, ParentFacts, CreateDomain, EmptyDir, NewNumber;
    ok, made := true, false;
    var dir, name;
    ghost var dirPath;
    dir, name, dirPath := FindParent(d, path);
    if dir.Some? {
      var existed, n;
      ok, existed, n := EnterInto(d, path, dir.value, name, 2, now, dirPath);
      made := !existed;
    }
  }

  /** sac_mkdir. It fails only when it has something to make. */
  method Mkdir(d: Disk, path: PathStr, now: nat) returns (ok: bool, r: int)
    requires FsOk(d) && CreateDomain(Ns(d), path) && now < 0x1_0000_0000_0000_0000
    modifies d, d.bits, d.blocks
    ensures ok <==> !CreateExits(old(Ns(d)), path, Room(old(d.Vol()).bm) < 2)
    ensures ok ==> FsOk(d) && d.lk == old(d.lk)
    ensures ok ==> r == MkdirCode(old(Ns(d)), path) && Ns(d) == MkdirNext(old(Ns(d)), path)
    ensures ok ==> r == 0 || r == -1
    ensures ok ==> (r == 0 <==> IsValidPath(path) && Split(path) != [] &&
                                Parent(Split(path)) in old(Ns(d)) && Split(path) !in old(Ns(d)))
    ensures ok && r == 0 ==> var p, ns := Split(path), Ns(d);
                             p in ns && ns[p].ADir? && ns == old(Ns(d))[p := ns[p]]
    ensures ok && r == -1 ==> Ns(d) == old(Ns(d))
  {
    hide FsOk, GraphOf, Split, View, Room, CreateExits, NewNumber;
    MkdirAnswer(Ns(d), path);
    ok, r := true, -1;
    if IsValidPath(path) {
      var made;
      ok, made := MkdirAt(d, path, now);
      r := if made then 0 else -1;
    } else {
      NothingToMake(Ns(d), path, Room(d.Vol().bm) < 2);
    }
  }

  lemma NothingToMake(ns: NS, path: PathStr, full: bool)
    requires Creatable(path) && !IsValidPath(path)
    ensures !CreateExits(ns, path, full)
  {
  }

  /** sac_open, for a valid path. */
  method OpenAt(d: Disk, path: PathStr, now: nat) returns (ok: bool, fd: Option<nat>)
    requires FsOk(d) && CreateDomain(Ns(d), path) && IsValidPath(path) && now < 0x1_0000_0000_0000_0000
    modifies d, d.bits, d.blocks
    ensures ok <==> !CreateExits(old(Ns(d)), path, Room(old(d.Vol()).bm) < 2)
    ensures Split(path) != [] && (fd.Some? <==> Parent(Split(path)) in old(Ns(d)))
    ensures ok ==> FsOk(d) && d.lk == old(d.lk)
    ensures ok ==> Ns(d) == OpenNext(old(Ns(d)), path)
    ensures ok && fd.Some? ==> fd.value == OpenCode(old(Ns(d)), path) && Resolve(GraphOf(d.Vol()), Split(path)) == fd
    ensures Parent(Split(path)) in old(Ns(d)) && Split(path) in old(Ns(d)) ==>
              ok && d.Vol() == old(d.Vol()) && d.own == old(d.own)
  {
    hide FsOk, GraphOf, Resolve, Split, View, Room, ParentFacts, CreateDomain, EmptyDir, NewNumber;
    ok, fd := true, None;
    var dir, name;
    ghost var dirPath;
    dir, name, dirPath := FindFolder(d, path);
    if dir.Some? {
      var existed, n;
      ok, existed, n := EnterInto(d, path, dir.value, name, 1, now, dirPath);
      fd := Some(n);
    }
  }

  /** sac_open: the inode number of what is there, or of the empty file it makes; -1 when the path is not
      valid or its directory does not exist. It fails only when it has something to make. */
  method Open(d: Disk, path: PathStr, now: nat) returns (ok: bool, fd: int)
    requires FsOk(d) && CreateDomain(Ns(d), path) && now < 0x1_0000_0000_0000_0000
    modifies d, d.bits, d.blocks
    ensures ok <==> !CreateExits(old(Ns(d)), path, Room(old(d.Vol()).bm) < 2)
    ensures ok ==> FsOk(d) && d.lk == old(d.lk) && Ns(d) == OpenNext(old(Ns(d)), path)
    ensures ok ==> fd == OpenCode(old(Ns(d)), path)
    ensures ok && fd >= 0 ==> Resolve(GraphOf(d.Vol()), Split(path)) == Some(fd)
    ensures IsValidPath(path) ==> Split(path) != []
    ensures ok ==> (fd == -1 <==> !IsValidPath(path) || Parent(Split(path)) !in old(Ns(d)))
    ensures ok && fd == -1 ==> Ns(d) == old(Ns(d))
    ensures ok && fd != -1 ==> var p, ns := Split(path), Ns(d);
                               && p in ns && ns[p].ino == fd
                               && ns == if p in old(Ns(d)) then old(Ns(d)) else old(Ns(d))[p := AFile(fd, [], false)]
  {
    hide FsOk, GraphOf, Resolve, Split, View, Room, CreateExits, NewNumber;
    OpenAnswer(Ns(d), path);
    ok, fd := true, -1;
    if IsValidPath(path) {
      var r;
      ok, r := OpenAt(d, path, now);
      fd := if r.Some? then r.value else -1;
    } else {
      NothingToMake(Ns(d), path, Room(d.Vol().bm) < 2);
    }
  }
}
