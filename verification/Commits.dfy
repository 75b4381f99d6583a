/** Writing one inode back: every other inode, with its blocks, bytes and entries, is as it was, so the
    table and the graph change at that inode only. */
module Commits {
  import opened Layout
  import opened Volume
  import opened Inodes

  /** The other inodes' table blocks, and the blocks they own, are unchanged. */
  ghost predicate Untouched(own: Owners, blk: seq<Block>, blk': seq<Block>, n: nat)
  {
    && |blk| == |blk'| == TOTAL_BLOCKS
    && forall b: nat |
         b < TOTAL_BLOCKS && ((b < DATA_INITIAL_BLOCK && b != n + 2) || (b in own && own[b].n != n)) ::
         blk'[b] == blk[b]
  }

  /** The owner maps agree on the blocks of all inodes other than n. */
  ghost predicate SameOwners(own: Owners, own': Owners, n: nat)
  {
    && (forall b | b in own && own[b].n != n :: Holds(own', b, own[b]))
    && (forall b | b in own' && own'[b].n != n :: Holds(own, b, own'[b]))
  }

  lemma SameOwnersRefl(own: Owners, n: nat)
    ensures SameOwners(own, own, n)
  {
  }

  lemma UntouchedRefl(own: Owners, blk: seq<Block>, n: nat)
    requires |blk| == TOTAL_BLOCKS
    ensures Untouched(own, blk, blk, n)
  {
  }

  lemma SameOwnersTrans(own: Owners, own1: Owners, own2: Owners, n: nat)
    requires SameOwners(own, own1, n) && SameOwners(own1, own2, n)
    ensures SameOwners(own, own2, n)
  {
  }

  lemma UntouchedTrans(own: Owners, own1: Owners, blk: seq<Block>, blk1: seq<Block>, blk2: seq<Block>, n: nat)
    requires SameOwners(own, own1, n) && Untouched(own, blk, blk1, n) && Untouched(own1, blk1, blk2, n)
    ensures Untouched(own, blk, blk2, n)
  {
    forall b: nat | b < TOTAL_BLOCKS && ((b < DATA_INITIAL_BLOCK && b != n + 2) || (b in own && own[b].n != n))
      ensures blk2[b] == blk[b]
    {
      assert b in own && own[b].n != n ==> Holds(own1, b, own[b]);
    }
  }

  lemma OthersKept(bm: seq<bool>, t: Table, own: Owners, lk: set<nat>, blk: seq<Block>, blk': seq<Block>, n: nat,
                   m: nat)
    requires Sound(bm, t, own, lk) && Untouched(own, blk, blk', n) && m in t && m != n
    ensures DataSame(blk, blk', t[m]) && PtrsSame(blk, blk', t[m])
  {
    var f := t[m];
    forall k | 0 <= k < |f.data|
      ensures BlockAt(blk', f.data[k]) == BlockAt(blk, f.data[k])
    {
      Roles(bm, t, own, lk, m, |f.ptrs| + k);
    }
    forall k | 0 <= k < |f.ptrs|
      ensures BlockAt(blk', f.ptrs[k]) == BlockAt(blk, f.ptrs[k])
    {
      Roles(bm, t, own, lk, m, k);
    }
  }

  /** Another inode's extent and object are the same in both volumes. */
  lemma OtherView(v: Vol, own: Owners, lk: set<nat>, blk': seq<Block>, n: nat, m: nat)
    requires VolOk(v, own, lk) && Live(v.bm, m) && m != n
    requires Untouched(own, v.blk, blk', n)
    ensures NodeAt(blk', m) == NodeAt(v.blk, m)
    ensures ExtentOf(blk', NodeAt(blk', m)) == ExtentOf(v.blk, NodeAt(v.blk, m))
    ensures ObjOf(blk', NodeAt(blk', m)) == ObjOf(v.blk, NodeAt(v.blk, m))
  {
    hide VolOk, Live, Untouched, NodeAt, NodeOk, BlockAt, TableOf, Linked, Sound, FileBytes, DirEntries, BlockCount,
      ExtentOf;
    StoredIsLinked(v, own, lk, m);
    var f, x := TableOf(v)[m], NodeAt(v.blk, m);
    OtherBlocks(v, own, lk, blk', n, m);
    LinkedFrame(v.blk, blk', x.ptrs, f);
    LinkedIsExtent(blk', x, f);
    SameBytes(v.blk, blk', f, x.size);
  }

  lemma OtherBlocks(v: Vol, own: Owners, lk: set<nat>, blk': seq<Block>, n: nat, m: nat)
    requires VolOk(v, own, lk) && Live(v.bm, m) && m != n && m in TableOf(v)
    requires Untouched(own, v.blk, blk', n)
    ensures NodeAt(blk', m) == NodeAt(v.blk, m)
    ensures DataSame(v.blk, blk', TableOf(v)[m]) && PtrsSame(v.blk, blk', TableOf(v)[m])
  {
    hide Sound, NodesOk, DataSame, PtrsSame, BlockToNode, TableOf;
    assert BlockAt(blk', m + 2) == BlockAt(v.blk, m + 2);
    OthersKept(v.bm, TableOf(v), own, lk, v.blk, blk', n, m);
  }

  /** The bits of the other inodes are the same. */
  ghost predicate LowBitsSame(bm: seq<bool>, bm': seq<bool>, n: nat)
  {
    && |bm| == |bm'| == TOTAL_BLOCKS
    && forall b | 0 <= b < DATA_INITIAL_BLOCK && b != n + 2 :: bm'[b] == bm[b]
  }

  /** Only inode n's own block, bit, pointer blocks and data blocks differ. */
  ghost predicate OnlyNode(v: Vol, own: Owners, v': Vol, n: nat)
  {
    LowBitsSame(v.bm, v'.bm, n) && Untouched(own, v.blk, v'.blk, n)
  }

  /** Inode m's line is the same in both volumes. */
  ghost predicate SameLine(v: Vol, v': Vol, m: nat)
  {
    && (Live(v'.bm, m) <==> Live(v.bm, m))
    && (Live(v.bm, m) ==>
          && ExtentOf(v'.blk, NodeAt(v'.blk, m)) == ExtentOf(v.blk, NodeAt(v.blk, m))
          && ObjOf(v'.blk, NodeAt(v'.blk, m)) == ObjOf(v.blk, NodeAt(v.blk, m))
          && NodeOk(NodeAt(v'.blk, m)))
  }

  lemma OtherLine(v: Vol, own: Owners, lk: set<nat>, v': Vol, n: nat, m: nat)
    requires VolOk(v, own, lk) && OnlyNode(v, own, v', n) && m != n
    ensures SameLine(v, v', m)
  {
    assert Live(v'.bm, m) <==> Live(v.bm, m);
    hide Live, ExtentOf, ObjOf, NodeAt, Untouched, LowBitsSame;
    if Live(v.bm, m) {
      OtherView(v, own, lk, v'.blk, n, m);
      StoredIsLinked(v, own, lk, m);
    }
  }

  ghost predicate OtherLines(v: Vol, v': Vol, n: nat)
  {
    forall m: nat | m != n :: SameLine(v, v', m)
  }

  lemma NewTable(v: Vol, v': Vol, n: nat)
    requires OtherLines(v, v', n)
    ensures Live(v'.bm, n) ==> TableOf(v') == TableOf(v)[n := ExtentOf(v'.blk, NodeAt(v'.blk, n))]
    ensures !Live(v'.bm, n) ==> TableOf(v') == TableOf(v) - {n}
  {
    hide NodeOk, ExtentOf, ObjOf, NodeAt;
    var t, t' := TableOf(v), TableOf(v');
    forall m: nat | m != n
      ensures (m in t' <==> m in t) && (m in t ==> t'[m] == t[m])
    {
      assert SameLine(v, v', m);
    }
  }

  lemma NewGraph(v: Vol, v': Vol, n: nat)
    requires OtherLines(v, v', n)
    ensures Live(v'.bm, n) ==> GraphOf(v') == GraphOf(v)[n := ObjOf(v'.blk, NodeAt(v'.blk, n))]
    ensures !Live(v'.bm, n) ==> GraphOf(v') == GraphOf(v) - {n}
  {
    hide NodeOk, ExtentOf, ObjOf, NodeAt;
    var g, g' := GraphOf(v), GraphOf(v');
    forall m: nat | m != n
      ensures (m in g' <==> m in g) && (m in g ==> g'[m] == g[m])
    {
      assert SameLine(v, v', m);
    }
  }

  /** The new volume's table and graph: the old ones with inode n's line replaced, or dropped. */
  lemma NewView(v: Vol, own: Owners, lk: set<nat>, v': Vol, n: nat)
    requires VolOk(v, own, lk) && OnlyNode(v, own, v', n)
    ensures Live(v'.bm, n) ==> TableOf(v') == TableOf(v)[n := ExtentOf(v'.blk, NodeAt(v'.blk, n))]
    ensures Live(v'.bm, n) ==> GraphOf(v') == GraphOf(v)[n := ObjOf(v'.blk, NodeAt(v'.blk, n))]
    ensures !Live(v'.bm, n) ==> TableOf(v') == TableOf(v) - {n} && GraphOf(v') == GraphOf(v) - {n}
    ensures NodesOk(v') <==> (Live(v'.bm, n) ==> NodeOk(NodeAt(v'.blk, n)))
  {
    hide VolOk, OnlyNode, NodeOk, ExtentOf, ObjOf, NodeAt, TableOf, GraphOf;
    forall m: nat | m != n
      ensures SameLine(v, v', m)
    {
      OtherLine(v, own, lk, v', n, m);
    }
    NewTable(v, v', n);
    NewGraph(v, v', n);
    forall m: nat | m != n && Live(v'.bm, m)
      ensures NodeOk(NodeAt(v'.blk, m))
    {
      assert SameLine(v, v', m);
    }
  }

  /** An inode written back with a sound new extent keeps the volume sound. */
  lemma Commit(v: Vol, own: Owners, lk: set<nat>, v': Vol, own': Owners, lk': set<nat>, n: nat, x: Node, f: Extent)
    requires VolOk(v, own, lk) && OnlyNode(v, own, v', n) && Live(v'.bm, n)
    requires NodeOk(x) && v'.blk[n + 2] == NodeToBlock(x)
    requires Linked(v'.blk, x.ptrs, f) && |f.data| == BlockCount(x)
    requires Sound(v'.bm, TableOf(v)[n := f], own', lk')
    ensures VolOk(v', own', lk')
    ensures NodeAt(v'.blk, n) == x
    ensures TableOf(v') == TableOf(v)[n := f]
    ensures GraphOf(v') == GraphOf(v)[n := ObjOf(v'.blk, x)]
  {
    NodeRoundTrip(x);
    assert NodeAt(v'.blk, n) == x;
    LinkedIsExtent(v'.blk, x, f);
    hide NodeAt, NodeOk, ExtentOf, ObjOf, NodeToBlock, BlockToNode, Sound, Linked;
    NewView(v, own, lk, v', n);
  }

  /** An inode whose bit is clear does not count: its blocks are no longer referenced. */
  lemma Drop(v: Vol, own: Owners, lk: set<nat>, v': Vol, own': Owners, lk': set<nat>, n: nat)
    requires VolOk(v, own, lk) && OnlyNode(v, own, v', n) && !Live(v'.bm, n)
    requires Sound(v'.bm, TableOf(v) - {n}, own', lk')
    ensures VolOk(v', own', lk')
    ensures TableOf(v') == TableOf(v) - {n}
    ensures GraphOf(v') == GraphOf(v) - {n}
  {
    hide NodeAt, NodeOk, ExtentOf, ObjOf, Sound;
    NewView(v, own, lk, v', n);
  }
}
