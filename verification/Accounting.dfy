/** Free space: how many blocks are free follows from the namespace and from how many blocks have leaked. */
module Accounting {
  import opened Layout
  import opened Volume
  import opened Graph
  import opened Namespace
  import opened Abstract
  import opened Inodes
  import opened DiskState
  import opened FreeSpace
  import opened GapFilling
  import opened Removal
  import opened FileCommit
  import opened DirStore
  import opened SacDirs

  // ---------------------------------------------------------------- the data region

  lemma {:induction false} RangeCount(lo: nat, hi: nat)
    requires lo <= hi
    ensures |Range(lo, hi)| == hi - lo
    decreases hi
  {
    if lo == hi {
      assert Range(lo, hi) == {};
    } else {
      RangeCount(lo, hi - 1);
      assert Range(lo, hi) == Range(lo, hi - 1) + {hi - 1};
    }
  }

  /** Every block of the data region is free, owned or leaked, and only one of these. */
  lemma RoomCount(bm: seq<bool>, t: Table, own: Owners, lk: set<nat>)
    requires Sound(bm, t, own, lk)
    ensures Room(bm) + |own| + |lk| == 2966
  {
    OwnersInRegion(bm, t, own, lk);
    Separate(bm, t, own, lk);
    assert BitsMatch(bm, own, lk);
    BitsCounted(bm, own, lk);
  }

  lemma BitsCounted(bm: seq<bool>, own: Owners, lk: set<nat>)
    requires BitsMatch(bm, own, lk) && own.Keys !! lk && forall b | b in own :: InRegion(b)
    ensures Room(bm) + |own| + |lk| == 2966
  {
    RangeCount(DATA_INITIAL_BLOCK, TOTAL_BLOCKS);
    forall b: nat
      ensures b in Range(DATA_INITIAL_BLOCK, TOTAL_BLOCKS) <==> b in FreeBlocks(bm) || b in own.Keys || b in lk
      ensures b in FreeBlocks(bm) ==> b !in own.Keys && b !in lk
    {
    }
    assert Range(DATA_INITIAL_BLOCK, TOTAL_BLOCKS) == FreeBlocks(bm) + own.Keys + lk;
    assert |own| == |own.Keys|;
  }

  // ---------------------------------------------------------------- the owned blocks, inode by inode

  function TableSpace(t: Table, k: nat): nat
  {
    if k == 0 then 0 else TableSpace(t, k - 1) + if k - 1 in t then |t[k - 1].data| + |t[k - 1].ptrs| else 0
  }

  function OwnedBelow(own: Owners, k: nat): set<nat>
  {
    set b | b in own && own[b].n < k
  }

  lemma BlocksCount(bm: seq<bool>, t: Table, own: Owners, lk: set<nat>, n: nat)
    requires Sound(bm, t, own, lk) && n in t
    ensures |BlocksOf(own, n)| == |t[n].data| + |t[n].ptrs|
  {
    hide *;
    AllBlocks(bm, t, own, lk, n);
    DistinctPtrs(bm, t, own, lk, n);
    ExtentCount(t[n]);
  }

  lemma ExtentCount(f: Extent)
    requires forall i, j | 0 <= i < j < |f.ptrs| :: f.ptrs[i] != f.ptrs[j]
    requires forall i, k | 0 <= i < |f.ptrs| && 0 <= k < |f.data| :: f.ptrs[i] != f.data[k]
    requires forall j, k | 0 <= j < k < |f.data| :: f.data[j] != f.data[k]
    ensures |FirstBlocks(f, |f.ptrs|, |f.data|)| == |f.data| + |f.ptrs|
  {
    DistinctCount(f.ptrs);
    DistinctCount(f.data);
    assert f.ptrs[..|f.ptrs|] == f.ptrs && f.data[..|f.data|] == f.data;
    assert (set b | b in f.ptrs) !! (set b | b in f.data) by {
      forall b | b in f.ptrs
        ensures b !in f.data
      {
        var i :| 0 <= i < |f.ptrs| && f.ptrs[i] == b;
      }
    }
  }

  lemma {:induction false} OwnersCounted(bm: seq<bool>, t: Table, own: Owners, lk: set<nat>, k: nat)
    requires Sound(bm, t, own, lk)
    ensures |OwnedBelow(own, k)| == TableSpace(t, k)
    decreases k
  {
    hide Sound;
    if k == 0 {
      assert OwnedBelow(own, 0) == {};
    } else {
      OwnersCounted(bm, t, own, lk, k - 1);
      OneMoreOwner(own, k - 1);
      hide OwnedBelow, BlocksOf;
      if k - 1 in t {
        BlocksCount(bm, t, own, lk, k - 1);
      } else {
        NoneOwned(bm, t, own, lk, k - 1);
      }
    }
  }

  lemma OneMoreOwner(own: Owners, n: nat)
    ensures |OwnedBelow(own, n + 1)| == |OwnedBelow(own, n)| + |BlocksOf(own, n)|
  {
    assert OwnedBelow(own, n + 1) == OwnedBelow(own, n) + BlocksOf(own, n);
    assert OwnedBelow(own, n) !! BlocksOf(own, n);
  }

  lemma NoneOwned(bm: seq<bool>, t: Table, own: Owners, lk: set<nat>, n: nat)
    requires Sound(bm, t, own, lk) && n !in t
    ensures BlocksOf(own, n) == {}
  {
    forall b | b in own
      ensures own[b].n in t
    {
      assert OwnerMet(t, own, lk, b);
    }
  }

  // ---------------------------------------------------------------- what a file or a directory takes

  /** The data blocks that a file of this size has if it has one, and their pointer blocks. */
  function FileSpace(size: nat): nat
  {
    size / 4096 + 1 + PtrBlocks(size / 4096 + 1)
  }

  function BodySpace(b: Body): nat
  {
    match b
    case File(data, blocks) => if blocks then FileSpace(|data|) else 0
    case Dir(ents) => if ents == [] then 0 else 2
  }

  lemma ExtentSpace(v: Vol, own: Owners, lk: set<nat>, n: nat)
    requires VolOk(v, own, lk) && Live(v.bm, n)
    ensures n in TableOf(v) && n in GraphOf(v)
    ensures |TableOf(v)[n].data| + |TableOf(v)[n].ptrs| == BodySpace(GraphOf(v)[n].body)
  {
    hide VolOk, Sound, NodeAt, TableOf, GraphOf, Linked, BlockCount, FileBytes, DirEntries, ExtentOf;
    StoredIsLinked(v, own, lk, n);
    LiveObj(v, n);
    CountIsSpace(v.blk, NodeAt(v.blk, n), TableOf(v)[n]);
  }

  lemma LiveObj(v: Vol, n: nat)
    requires Live(v.bm, n)
    ensures n in GraphOf(v) && GraphOf(v)[n] == ObjOf(v.blk, NodeAt(v.blk, n))
  {
    hide ObjOf, NodeAt;
  }

  lemma CountIsSpace(blk: seq<Block>, x: Node, f: Extent)
    requires NodeOk(x) && Linked(blk, x.ptrs, f) && |f.data| == BlockCount(x)
    ensures |f.data| + |f.ptrs| == BodySpace(ObjOf(blk, x).body)
  {
    hide DataBlock, ExtentOf;
  }

  // ---------------------------------------------------------------- in the abstraction

  ghost function ItemSpace(ns: NS, p: Path): nat
    requires p in ns
  {
    match ns[p]
    case ADir(_) => if EmptyDir(ns, p) then 0 else 2
    case AFile(_, data, blocks) => if blocks then FileSpace(|data|) else 0
  }

  ghost function SpaceBelow(ns: NS, k: nat): nat
  {
    if k == 0 then 0 else SpaceBelow(ns, k - 1) + if Used(ns, k - 1) then ItemSpace(ns, PathOf(ns, k - 1)) else 0
  }

  /** A directory takes two blocks when something is in it; a file that has a block takes one for every 4096 bytes
      begun, one more when its size is a whole number of blocks, and one for every 1024 of these. */
  lemma ItemSpaceIs(ns: NS, p: Path)
    requires p in ns
    ensures ItemSpace(ns, p) ==
            match ns[p]
            case ADir(_) => if exists name: Name :: p + [name] in ns then 2 else 0
            case AFile(_, data, blocks) =>
              if blocks then |data| / 4096 + 1 + (|data| / 4096 + 1024) / 1024 else 0
  {
  }

  /** The blocks that the items of a namespace take. */
  ghost function Space(ns: NS): nat
  {
    SpaceBelow(ns, NODE_TABLE_BLOCKS)
  }

  lemma NumberSpace(g: Graph, n: nat)
    requires Tree(g)
    ensures Used(View(g), n) <==> n in g
    ensures n in g ==> ItemSpace(View(g), PathOf(View(g), n)) == BodySpace(g[n].body)
  {
    hide Tree, View, Resolve, EmptyDir, FileSpace;
    NumbersAre(g, n);
    if n in g {
      var p := PathOf(View(g), n);
      ViewAt(g, p);
      if g[n].body.Dir? {
        EmptyIs(g, p, n);
      }
    }
  }

  lemma {:induction false} SpaceCounted(v: Vol, own: Owners, lk: set<nat>, k: nat)
    requires VolOk(v, own, lk) && Tree(GraphOf(v)) && k <= NODE_TABLE_BLOCKS
    ensures TableSpace(TableOf(v), k) == SpaceBelow(View(GraphOf(v)), k)
    decreases k
  {
    hide VolOk, Tree, TableOf, GraphOf, View, Used, BodySpace, ItemSpace, Live;
    if k > 0 {
      SpaceCounted(v, own, lk, k - 1);
      NumberSpace(GraphOf(v), k - 1);
      LiveInGraph(v, k - 1);
      LiveInTable(v, k - 1);
      if k - 1 in GraphOf(v) {
        ExtentSpace(v, own, lk, k - 1);
      }
    }
  }

  lemma LiveInTable(v: Vol, n: nat)
    ensures n in TableOf(v) <==> Live(v.bm, n)
  {
    hide ExtentOf, NodeAt;
  }

  /** The free blocks of a volume are those that neither the items of its namespace take nor have leaked. */
  lemma SpaceIs(v: Vol, own: Owners, lk: set<nat>)
    requires VolOk(v, own, lk) && Tree(GraphOf(v))
    ensures Room(v.bm) + |lk| + Space(View(GraphOf(v))) == 2966
  {
    hide Tree, GraphOf, View, Sound, NodesOk, Room, SpaceBelow, TableSpace;
    RoomCount(v.bm, TableOf(v), own, lk);
    OwnersCounted(v.bm, TableOf(v), own, lk, NODE_TABLE_BLOCKS);
    SpaceCounted(v, own, lk, NODE_TABLE_BLOCKS);
    AllBelow(v, own, lk);
  }

  lemma AllBelow(v: Vol, own: Owners, lk: set<nat>)
    requires VolOk(v, own, lk)
    ensures |OwnedBelow(own, NODE_TABLE_BLOCKS)| == |own|
  {
    hide TableOf, NodesOk, Live, ExtentOf;
    forall b | b in own
      ensures own[b].n < NODE_TABLE_BLOCKS
    {
      assert OwnerMet(TableOf(v), own, lk, b);
      LiveInTable(v, own[b].n);
      LiveBelow(v, own[b].n);
    }
    assert OwnedBelow(own, NODE_TABLE_BLOCKS) == own.Keys;
  }

  lemma LiveBelow(v: Vol, n: nat)
    requires Live(v.bm, n)
    ensures n < NODE_TABLE_BLOCKS
  {
  }

  /** The free blocks when a namespace is held with that many blocks leaked. */
  ghost function RoomLeft(ns: NS, leaks: nat): nat
  {
    if leaks + Space(ns) <= 2966 then 2966 - leaks - Space(ns) else 0
  }

  /** An empty file system takes no block: all 2966 are free. */
  lemma FreshRoom()
    ensures RoomLeft(imap[[] := ADir(0)], 0) == 2966
  {
    FreshSpace(NODE_TABLE_BLOCKS);
    hide SpaceBelow;
  }

  lemma {:induction false} FreshSpace(k: nat)
    ensures SpaceBelow(imap[[] := ADir(0)], k) == 0
    decreases k
  {
    if k > 0 {
      FreshSpace(k - 1);
      var ns: NS := imap[[] := ADir(0)];
      if Used(ns, k - 1) {
        assert PathOf(ns, k - 1) == [] && EmptyDir(ns, []);
      }
    }
  }

  lemma RoomIs(d: Disk)
    requires FsOk(d)
    ensures Room(d.Vol().bm) == RoomLeft(Ns(d), |d.lk|)
  {
    hide Tree, GraphOf, View, VolOk, Space, Room;
    SpaceIs(d.Vol(), d.own, d.lk);
  }
}
