/** What the volume invariant says of the raw blocks and bits: no block has two uses, the used blocks are
    the referenced ones and the leaked ones, and every inode has the exact shape its size calls for. */
module Invariants {
  import opened Layout
  import opened Volume
  import opened Graph
  import opened GraphOps
  import opened Inodes
  import opened DirStore
  import opened Creation

  /** The role is one that a live inode's size calls for. */
  ghost predicate InUse(v: Vol, r: Role)
  {
    && Live(v.bm, r.n)
    && match r
       case PtrRole(n, k) => k < PtrBlocks(BlockCount(NodeAt(v.blk, n)))
       case DataRole(n, k) => k < BlockCount(NodeAt(v.blk, n))
  }

  /** The block number stored for the role: in the inode's pointer array, or in a slot of a pointer
      block. */
  function BlockFor(v: Vol, r: Role): nat
  {
    var ptrs := NodeAt(v.blk, r.n).ptrs;
    match r
    case PtrRole(n, k) => if k < |ptrs| then ptrs[k] else 0
    case DataRole(n, k) => DataBlock(v.blk, ptrs, k)
  }

  lemma RoleHeld(v: Vol, own: Owners, lk: set<nat>, r: Role)
    requires VolOk(v, own, lk) && InUse(v, r)
    ensures InRegion(BlockFor(v, r)) && Holds(own, BlockFor(v, r), r)
  {
    hide VolOk, NodeAt, TableOf, NodeOk, DataBlock, BlockCount;
    StoredIsLinked(v, own, lk, r.n);
    var f := TableOf(v)[r.n];
    VolIsSound(v, own, lk);
    match r {
      case PtrRole(n, k) => Roles(v.bm, TableOf(v), own, lk, n, k);
      case DataRole(n, k) => Roles(v.bm, TableOf(v), own, lk, n, |f.ptrs| + k);
    }
  }

  lemma VolIsSound(v: Vol, own: Owners, lk: set<nat>)
    requires VolOk(v, own, lk)
    ensures Sound(v.bm, TableOf(v), own, lk) && WfVol(v)
  {
    hide Sound, TableOf;
  }

  /** All pointer blocks and data blocks of all live inodes are pairwise distinct, lie in the data region,
      and are marked used. */
  lemma Unaliased(v: Vol, own: Owners, lk: set<nat>, r: Role, s: Role)
    requires VolOk(v, own, lk) && InUse(v, r) && InUse(v, s)
    ensures BlockFor(v, r) == BlockFor(v, s) ==> r == s
    ensures DATA_INITIAL_BLOCK <= BlockFor(v, r) < TOTAL_BLOCKS && |v.bm| == TOTAL_BLOCKS && v.bm[BlockFor(v, r)]
  {
    RoleHeld(v, own, lk, r);
    RoleHeld(v, own, lk, s);
    VolIsSound(v, own, lk);
    hide VolOk, NodeAt, TableOf, InUse, BlockFor, NodesOk;
  }

  lemma OwnedIsInUse(v: Vol, own: Owners, lk: set<nat>, b: nat)
    requires VolOk(v, own, lk) && b in own
    ensures InUse(v, own[b]) && BlockFor(v, own[b]) == b
  {
    VolIsSound(v, own, lk);
    OwnerIs(v, own, lk, b);
    hide VolOk, NodeAt, TableOf, NodeOk, DataBlock, BlockCount, Sound;
    StoredIsLinked(v, own, lk, own[b].n);
  }

  lemma OwnerIs(v: Vol, own: Owners, lk: set<nat>, b: nat)
    requires VolOk(v, own, lk) && b in own
    ensures RoleMet(TableOf(v), b, own[b]) && Live(v.bm, own[b].n)
  {
    assert OwnerMet(TableOf(v), own, lk, b);
    hide NodeAt, ExtentOf, Sound;
  }

  /** Conservation: a block of the data region is marked used exactly when a live inode's size calls for it
      or it is leaked, and never both. */
  lemma Conservation(v: Vol, own: Owners, lk: set<nat>, b: nat)
    requires VolOk(v, own, lk) && DATA_INITIAL_BLOCK <= b < TOTAL_BLOCKS
    ensures |v.bm| == TOTAL_BLOCKS
    ensures v.bm[b] <==> b in lk || exists r :: InUse(v, r) && BlockFor(v, r) == b
    ensures b in lk ==> forall r | InUse(v, r) :: BlockFor(v, r) != b
  {
    VolIsSound(v, own, lk);
    if b in own {
      OwnedIsInUse(v, own, lk, b);
      assert OwnerMet(TableOf(v), own, lk, b);
    }
    hide VolOk, NodeAt, TableOf, InUse, BlockFor;
    forall r | InUse(v, r)
      ensures Holds(own, BlockFor(v, r), r)
    {
      RoleHeld(v, own, lk, r);
    }
  }

  /** The exact shape: the pointers set are the first ones, as many as the size calls for; sizes and block
      counts are far below what the index can hold. */
  lemma ExactShape(v: Vol, own: Owners, lk: set<nat>, n: nat)
    requires VolOk(v, own, lk) && Live(v.bm, n)
    ensures var x := NodeAt(v.blk, n);
            && |x.ptrs| == 1000
            && (forall i | 0 <= i < 1000 :: x.ptrs[i] != 0 <==> i < PtrBlocks(BlockCount(x)))
            && (x.ptrs[0] != 0 ==>
                  BlockCount(x) == x.size / 4096 + 1 && PtrBlocks(BlockCount(x)) == x.size / 4096 / 1024 + 1)
            && (x.ptrs[0] == 0 ==> x.size == 0)
            && BlockCount(x) + PtrBlocks(BlockCount(x)) <= 2966 && PtrBlocks(BlockCount(x)) <= 3
            && x.size < 2966 * 4096
  {
    hide VolOk, NodeAt, TableOf, DataBlock;
    StoredIsLinked(v, own, lk, n);
    VolIsSound(v, own, lk);
    SizeBound(v.bm, TableOf(v), own, lk, n);
    hide Sound;
  }

  /** The counting argument: a directory has at most 31 entries, so it never outgrows its one block. */
  lemma DirectoryFits(v: Vol, own: Owners, lk: set<nat>, n: nat)
    requires VolOk(v, own, lk) && Tree(GraphOf(v)) && IsDir(GraphOf(v), n)
    ensures NodeAt(v.blk, n).size == 128 * |GraphOf(v)[n].body.ents|
    ensures |GraphOf(v)[n].body.ents| + 1 <= |GraphOf(v)| <= 32
    ensures NodeAt(v.blk, n).size <= 3968 && BlockCount(NodeAt(v.blk, n)) <= 1
  {
    hide VolOk, Tree, GraphOf, TableOf, NodeAt, DirEntries, BlockCount, NodeOk;
    DirObj(v, n);
    NodeIsOk(v, own, lk, n);
    DirCount(NodeAt(v.blk, n));
    EntriesCounted(GraphOf(v), n);
  }

  lemma NodeIsOk(v: Vol, own: Owners, lk: set<nat>, n: nat)
    requires VolOk(v, own, lk) && Live(v.bm, n)
    ensures NodeOk(NodeAt(v.blk, n))
  {
    hide NodeOk, NodeAt, Sound;
  }

  lemma EntriesCounted(g: Graph, n: nat)
    requires Tree(g) && IsDir(g, n)
    ensures |g[n].body.ents| + 1 <= |g| <= 32
  {
    RootIsLive(g);
    NotOwnEntry(g, n);
    EntriesBounded(g, n, {0});
    LiveCount(g.Keys, NODE_TABLE_BLOCKS);
  }
}
