/** node.c: growing and shrinking an inode's two-level index, and finding a data block through it. */
module NodeOps {
  import opened Bytes
  import opened Layout
  import opened Volume
  import opened Inodes
  import opened Commits
  import opened Growth
  import opened DiskState
  import opened Bitmap
  import opened FreeSpace

  /** The table describes the volume, and x is a copy of inode n whose pointers lead to its extent. */
  ghost predicate Holding(d: Disk, t: Table, x: TNode, n: nat)
    reads d, d.bits, d.blocks, x
  {
    && d.Sizes() && Sound(d.Vol().bm, t, d.own, d.lk)
    && n in t && n < NODE_TABLE_BLOCKS && Linked(d.Vol().blk, x.ptrs, t[n])
  }

  /** What a change to inode n's blocks leaves alone: the inode bits and blocks of the table, the other
      inodes' blocks, and the bytes of the data blocks n had. */
  twostate predicate LocalTo(d: Disk, f: Extent, n: nat)
    reads d, d.bits, d.blocks
  {
    && d.Sizes()
    && LowBits(old(d.Vol()).bm, d.Vol().bm)
    && Local(old(d.own), d.own, old(d.Vol()).blk, d.Vol().blk, f, n)
  }

  ghost predicate LowBits(bm: seq<bool>, bm': seq<bool>)
  {
    |bm| == |bm'| == TOTAL_BLOCKS && forall b | 0 <= b < DATA_INITIAL_BLOCK :: bm'[b] == bm[b]
  }

  /** Reserves a data block and stores its number in one slot of a pointer block of the inode. */
  method CreateDataBlock(d: Disk, x: TNode, i: nat, j: nat, ghost t: Table) returns (ok: bool, b: nat)
    requires d.Sizes() && Sound(d.Vol().bm, t, d.own, d.lk)
    requires i < |x.ptrs| && x.ptrs[i] < TOTAL_BLOCKS && j < 1024
    modifies d`lk, d.bits, d.blocks
    ensures ok ==> InRegion(b) && d.Vol().bm == old(d.Vol()).bm[b := true] && !old(d.Vol()).bm[b]
    ensures ok ==> d.lk == old(d.lk) + {b} && b !in old(d.lk) && b !in d.own
    ensures ok ==> var p := x.ptrs[i];
                   d.Vol().blk == old(d.Vol()).blk[p := PutSlot(old(d.Vol()).blk[p], j, b)]
    ensures Sound(d.Vol().bm, t, d.own, d.lk)
    ensures Paid(ok, old(d.Vol()).bm, d.Vol().bm, 1)
  {
    ok, b := GetFreeDataBlock(d, t);
    if ok {
      var p := x.ptrs[i];
      d.WriteBlock(p, PutSlot(d.blocks[p], j, b));
    }
  }

  /** Reserves a pointer block and stores its number in the inode. */
  method CreatePointersBlock(d: Disk, x: TNode, i: nat, ghost t: Table) returns (ok: bool, p: nat)
    requires d.Sizes() && Sound(d.Vol().bm, t, d.own, d.lk) && i < |x.ptrs|
    modifies d`lk, d.bits, x`ptrs
    ensures ok ==> InRegion(p) && d.Vol() == old(d.Vol()).(bm := old(d.Vol()).bm[p := true]) && !old(d.Vol()).bm[p]
    ensures ok ==> d.lk == old(d.lk) + {p} && p !in old(d.lk) && p !in d.own
    ensures ok ==> x.ptrs == old(x.ptrs)[i := p]
    ensures Sound(d.Vol().bm, t, d.own, d.lk)
    ensures Paid(ok, old(d.Vol()).bm, d.Vol().bm, 1)
  {
    ok, p := GetFreeDataBlock(d, t);
    if ok {
      x.ptrs := x.ptrs[i := p];
    }
  }

  /** What reserving a block, and a pointer block for it if i is the first pointer that is clear, and storing
      its number in slot j makes of the volume and the pointer array. */
  ghost predicate BlockStored(v: Vol, ptrs: seq<u32>, v': Vol, ptrs': seq<u32>, i: nat, j: nat, p: nat, b: nat)
  {
    && |v.bm| == |v.blk| == TOTAL_BLOCKS && i < |ptrs| && j < 1024
    && InRegion(b) && !v.bm[b] && p < TOTAL_BLOCKS
    && v'.blk == v.blk[p := PutSlot(v.blk[p], j, b)]
    && if i == SetPointers(ptrs) then
         InRegion(p) && !v.bm[p] && p != b && v'.bm == v.bm[p := true][b := true] && ptrs' == ptrs[i := p]
       else
         p == ptrs[i] && v'.bm == v.bm[b := true] && ptrs' == ptrs
  }

  /** The blocks reserved on the way. */
  ghost function Reserved(ptrs: seq<u32>, i: nat, p: nat, b: nat): set<nat>
  {
    if i == SetPointers(ptrs) then {p, b} else {b}
  }

  /** create_pointers_block_in_node, and create_data_block_in_pointer_block in its first slot. */
  method CreateBoth(d: Disk, x: TNode, i: nat, ghost t: Table) returns (ok: bool, ghost p: nat, ghost b: nat)
    requires d.Sizes() && Sound(d.Vol().bm, t, d.own, d.lk) && i < |x.ptrs| && i == SetPointers(x.ptrs)
    modifies d`lk, d.bits, d.blocks, x`ptrs
    ensures ok ==> BlockStored(old(d.Vol()), old(x.ptrs), d.Vol(), x.ptrs, i, 0, p, b)
    ensures ok ==> d.lk == old(d.lk) + Reserved(old(x.ptrs), i, p, b) && p !in old(d.lk) && b !in old(d.lk)
    ensures ok ==> p !in d.own && b !in d.own
    ensures Sound(d.Vol().bm, t, d.own, d.lk)
    ensures Paid(ok, old(d.Vol()).bm, d.Vol().bm, 2)
  {
    hide Sound, PutSlot, InRegion, Room;
    ghost var bm := d.Vol().bm;
    var q;
    ok, q := CreatePointersBlock(d, x, i, t);
    p, b := q, q;
    if ok {
      RegionBelow(q);
      var c;
      ok, c := CreateDataBlock(d, x, i, 0, t);
      b := c;
      if ok {
        RegionBelow(c);
        assert !bm[c] by { assert !bm[q := true][c]; }
      }
    }
  }

  /** The loop of add_data_block_to_node. */
  method CountPointers(x: TNode) returns (count: nat)
    requires |x.ptrs| == 1000
    ensures count == SetPointers(x.ptrs)
    ensures forall i | 0 <= i < count :: x.ptrs[i] != 0
    ensures count < 1000 ==> x.ptrs[count] == 0
  {
    count := 0;
    while count < 1000 && x.ptrs[count] != 0
      invariant 0 <= count <= 1000 && forall i | 0 <= i < count :: x.ptrs[i] != 0
    {
      count := count + 1;
    }
    SetPointersIs(x.ptrs, count);
  }

  /** add_data_block_to_node, for any inode with a pointer to spare: a block is reserved and stored at the
      position that the number of pointers set and the size give, whether or not the positions before it
      have blocks. */
  method AddDataBlock(d: Disk, x: TNode, ghost t: Table) returns (ok: bool, ghost p: nat, ghost b: nat)
    requires d.Sizes() && Sound(d.Vol().bm, t, d.own, d.lk)
    requires |x.ptrs| == 1000 && SetPointers(x.ptrs) < 1000 && forall i | 0 <= i < 1000 :: x.ptrs[i] < TOTAL_BLOCKS
    modifies d`lk, d.bits, d.blocks, x`ptrs
    ensures ok ==> var k := AddPosition(SetPointers(old(x.ptrs)), x.size);
                   && BlockStored(old(d.Vol()), old(x.ptrs), d.Vol(), x.ptrs, k / 1024, k % 1024, p, b)
                   && d.lk == old(d.lk) + Reserved(old(x.ptrs), k / 1024, p, b)
    ensures ok ==> p !in old(d.lk) + d.own.Keys || p in old(x.ptrs)
    ensures ok ==> b !in old(d.lk) && b !in d.own
    ensures Sound(d.Vol().bm, t, d.own, d.lk)
    ensures Paid(ok, old(d.Vol()).bm, d.Vol().bm, AddCost(SetPointers(old(x.ptrs)), x.size))
  {
    hide Sound, BlockStored, Paid;
    var pointers := CountPointers(x);
    var last := pointers as int - 1;
    var count := x.size / BLOCK_SIZE + 1;
    if count < 1024 * (last + 1) {
      PositionInLast(pointers, x.size);
      var c;
      ok, c := CreateDataBlock(d, x, last, count % 1024, t);
      p, b := x.ptrs[last], c;
      if ok {
        StoredInSlot(old(d.Vol()), x.ptrs, d.Vol(), last, count % 1024, p, b);
      }
    } else {
      PositionInNew(pointers, x.size);
      ok, p, b := CreateBoth(d, x, last + 1, t);
    }
  }

  /** How many blocks adding a data block takes: two if it needs a pointer block. */
  function AddCost(pointers: nat, size: nat): nat
  {
    if AddPosition(pointers, size) / 1024 == pointers then 2 else 1
  }

  lemma PositionInLast(pointers: nat, size: nat)
    requires size / 4096 + 1 < 1024 * pointers
    ensures AddPosition(pointers, size) / 1024 == pointers - 1
    ensures AddPosition(pointers, size) % 1024 == (size / 4096 + 1) % 1024
  {
  }

  lemma PositionInNew(pointers: nat, size: nat)
    requires size / 4096 + 1 >= 1024 * pointers
    ensures AddPosition(pointers, size) / 1024 == pointers && AddPosition(pointers, size) % 1024 == 0
  {
  }

  lemma StoredInSlot(v: Vol, ptrs: seq<u32>, v': Vol, i: nat, j: nat, p: nat, b: nat)
    requires |v.bm| == |v.blk| == TOTAL_BLOCKS && i < |ptrs| && j < 1024 && i != SetPointers(ptrs)
    requires InRegion(b) && !v.bm[b] && p == ptrs[i] < TOTAL_BLOCKS
    requires v'.bm == v.bm[b := true] && v'.blk == v.blk[p := PutSlot(v.blk[p], j, b)]
    ensures BlockStored(v, ptrs, v', ptrs, i, j, p, b)
  {
    hide PutSlot, InRegion;
  }

  // ---------------------------------------------------------------- the block joins the inode

  /** What adding a data block at position k promises. */
  twostate predicate Added(d: Disk, x: TNode, n: nat, t: Table, t': Table, k: nat)
    requires n in t && k <= |t[n].data|
    reads d, d.bits, d.blocks, x
  {
    && Holding(d, t', x, n) && t' == t[n := t'[n]] && LocalTo(d, t[n], n)
    && |t'[n].data| == k + 1 && t'[n].data[..k] == t[n].data[..k]
    && t'[n].data[k] !in t[n].data
    && d.lk == old(d.lk) + Displaced(t[n], k)
  }

  lemma LowBitsSet(bm: seq<bool>, b: nat)
    requires |bm| == TOTAL_BLOCKS && InRegion(b)
    ensures LowBits(bm, bm[b := true])
  {
  }

  /** Where the slot of position k is. */
  lemma SlotPlace(bm: seq<bool>, blk: seq<Block>, t: Table, own: Owners, lk: set<nat>, n: nat, ptrs: seq<u32>, k: nat)
    requires Sound(bm, t, own, lk) && n in t && Linked(blk, ptrs, t[n])
    requires (k == |t[n].data| && k % 1024 != 0) || k + 1 == |t[n].data|
    ensures k / 1024 < |t[n].ptrs| <= |ptrs| && ptrs[k / 1024] == t[n].ptrs[k / 1024] && InRegion(ptrs[k / 1024])
  {
    assert k / 1024 < |t[n].ptrs|;
    Roles(bm, t, own, lk, n, k / 1024);
  }

  lemma RegionBelow(b: nat)
    requires InRegion(b)
    ensures 0 < b < TOTAL_BLOCKS
  {
  }

  lemma FreshIsNew(bm: seq<bool>, t: Table, own: Owners, lk: set<nat>, n: nat, b: nat)
    requires Sound(bm, t, own, lk) && n in t && InRegion(b) && !bm[b]
    ensures b !in t[n].data && b !in t[n].ptrs
  {
    forall k | 0 <= k < |t[n].data|
      ensures t[n].data[k] != b
    {
      Roles(bm, t, own, lk, n, |t[n].ptrs| + k);
    }
    forall k | 0 <= k < |t[n].ptrs|
      ensures t[n].ptrs[k] != b
    {
      Roles(bm, t, own, lk, n, k);
    }
  }

  lemma LowBitsTrans(bm: seq<bool>, bm1: seq<bool>, bm2: seq<bool>)
    requires LowBits(bm, bm1) && LowBits(bm1, bm2)
    ensures LowBits(bm, bm2)
  {
  }

  lemma NothingDisplaced(f: Extent)
    ensures Displaced(f, |f.data|) == {}
  {
  }

  /** The state of an inode's blocks, as values. */
  datatype Held = Held(bm: seq<bool>, blk: seq<Block>, own: Owners, lk: set<nat>, t: Table, ptrs: seq<u32>)

  ghost predicate HeldOk(h: Held, n: nat)
  {
    && |h.blk| == TOTAL_BLOCKS && Sound(h.bm, h.t, h.own, h.lk)
    && n in h.t && n < NODE_TABLE_BLOCKS && Linked(h.blk, h.ptrs, h.t[n])
  }

  /** What a block added at position k makes of it. */
  ghost predicate Grown(h: Held, h': Held, n: nat, k: nat)
  {
    && n in h.t && n in h'.t && k <= |h.t[n].data|
    && HeldOk(h', n) && h'.t == h.t[n := h'.t[n]]
    && LowBits(h.bm, h'.bm) && Local(h.own, h'.own, h.blk, h'.blk, h.t[n], n)
    && |h'.t[n].data| == k + 1 && h'.t[n].data[..k] == h.t[n].data[..k]
    && h'.t[n].data[k] !in h.t[n].data
    && h'.lk == h.lk + Displaced(h.t[n], k)
  }

  /** A block stored in the last pointer block, at the next position or over the last one. */
  lemma JoinSlot(h: Held, v': Vol, n: nat, k: nat, p: nat, b: nat) returns (h': Held)
    requires HeldOk(h, n)
    requires (k == |h.t[n].data| && k % 1024 != 0) || k + 1 == |h.t[n].data|
    requires BlockStored(Vol(h.bm, h.blk), h.ptrs, v', h.ptrs, k / 1024, k % 1024, p, b)
    requires k / 1024 != SetPointers(h.ptrs)
    requires Sound(v'.bm, h.t, h.own, h.lk + {b}) && b !in h.lk
    ensures Grown(h, h', n, k) && h'.bm == v'.bm && h'.blk == v'.blk && h'.ptrs == h.ptrs
  {
    hide Sound, Linked, Local, Displaced, PutSlot, LowBits, InRegion;
    var gone := Displaced(h.t[n], k);
    var f' := h.t[n].(data := h.t[n].data[..k] + [b]);
    h' := Held(v'.bm, v'.blk, (h.own - gone)[b := DataRole(n, k)], h.lk + gone, h.t[n := f'], h.ptrs);
    RegionBelow(b);
    SlotPlace(h.bm, h.blk, h.t, h.own, h.lk, n, h.ptrs, k);
    FreshIsNew(h.bm, h.t, h.own, h.lk, n, b);
    GrowAt(v'.bm, h.blk, h.t, h.own, h.lk + {b}, n, h.ptrs, k, b);
    LowBitsSet(h.bm, b);
    assert h.lk + {b} - {b} == h.lk;
  }

  /** A block stored first in a new pointer block, when the others are full. */
  lemma JoinBoth(h: Held, v': Vol, ptrs': seq<u32>, n: nat, p: nat, b: nat) returns (h': Held)
    requires HeldOk(h, n) && |h.t[n].data| == 1024 * |h.t[n].ptrs| && SetPointers(h.ptrs) == |h.t[n].ptrs|
    requires BlockStored(Vol(h.bm, h.blk), h.ptrs, v', ptrs', |h.t[n].ptrs|, 0, p, b)
    requires Sound(v'.bm, h.t, h.own, h.lk + {p, b}) && b !in h.lk && p !in h.lk
    ensures Grown(h, h', n, |h.t[n].data|) && h'.bm == v'.bm && h'.blk == v'.blk && h'.ptrs == ptrs' && h'.lk == h.lk
  {
    hide Sound, Linked, Local, Displaced, PutSlot, LowBits, InRegion;
    var f, k, i := h.t[n], |h.t[n].data|, |h.t[n].ptrs|;
    h' := Held(v'.bm, v'.blk, h.own[p := PtrRole(n, i)][b := DataRole(n, k)], h.lk,
               h.t[n := Extent(f.ptrs + [p], f.data + [b])], ptrs');
    RegionBelow(p);
    RegionBelow(b);
    FreshIsNew(h.bm, h.t, h.own, h.lk, n, b);
    GrowBoth(v'.bm, h.blk, h.t, h.own, h.lk + {p, b}, n, h.ptrs, p, b);
    LowBitsSet(h.bm, p);
    LowBitsSet(h.bm[p := true], b);
    LowBitsTrans(h.bm, h.bm[p := true], v'.bm);
    NothingDisplaced(f);
    assert h.lk + {p, b} - {p} - {b} == h.lk;
    assert f.data[..k] == f.data;
    assert h.lk + {} == h.lk;
  }

  lemma PointersOf(d: Disk, t: Table, x: TNode, n: nat)
    requires Holding(d, t, x, n)
    ensures n in t && |x.ptrs| == 1000 && SetPointers(x.ptrs) == |t[n].ptrs| == PtrBlocks(|t[n].data|) < 1000
    ensures forall i | 0 <= i < 1000 :: x.ptrs[i] < TOTAL_BLOCKS
    ensures d.Sizes() && Sound(d.Vol().bm, t, d.own, d.lk)
  {
    var f := t[n];
    SizeBound(d.Vol().bm, t, d.own, d.lk, n);
    SetPointersIs(x.ptrs, |f.ptrs|);
    forall i | 0 <= i < 1000
      ensures x.ptrs[i] < TOTAL_BLOCKS
    {
      if i < |f.ptrs| {
        Roles(d.Vol().bm, t, d.own, d.lk, n, i);
      }
    }
  }

  /** Where the next block goes, when the inode has no block, or those its size calls for, or one more, or
      one less with its pointer blocks exactly full. */
  lemma PositionIs(blocks: nat, size: nat)
    requires CanGrow(blocks, size)
    ensures var k := AddPosition(PtrBlocks(blocks), size);
            && k == (if blocks > 0 && blocks == size / 4096 + 2 then blocks - 1 else blocks)
            && (k / 1024 == PtrBlocks(blocks) ==> k == blocks == 1024 * PtrBlocks(blocks))
            && (k / 1024 != PtrBlocks(blocks) && k == blocks ==> k % 1024 != 0)
  {
  }

  predicate CanGrow(blocks: nat, size: nat)
  {
    var count := size / 4096 + 1;
    blocks == 0 || blocks == count || blocks == count + 1 || (blocks + 1 == count && blocks % 1024 == 0)
  }

  ghost function HeldBy(d: Disk, t: Table, x: TNode): Held
    reads d, d.bits, d.blocks, x
  {
    Held(d.Vol().bm, d.Vol().blk, d.own, d.lk, t, x.ptrs)
  }

  /** The pointer blocks are full: a new one is made and its first slot used. */
  method AddInNewPointerBlock(d: Disk, x: TNode, i: nat, ghost n: nat, ghost t: Table)
    returns (ok: bool, ghost t': Table)
    requires Holding(d, t, x, n)
    requires i == |t[n].ptrs| && |t[n].data| == 1024 * i
    modifies d, d.bits, d.blocks, x`ptrs
    ensures ok ==> Added(d, x, n, t, t', |t[n].data|)
    ensures Paid(ok, old(d.Vol()).bm, d.Vol().bm, 2)
  {
    hide Sound, Linked, LowBits, Local, Displaced, BlockStored, SetPointers, Paid;
    PointersOf(d, t, x, n);
    ghost var h := HeldBy(d, t, x);
    t' := t;
    ghost var p, b;
    ok, p, b := CreateBoth(d, x, i, t);
    if ok {
      ghost var h' := JoinBoth(h, d.Vol(), x.ptrs, n, p, b);
      d.own, d.lk, t' := h'.own, h'.lk, h'.t;
      assert HeldBy(d, t', x) == h';
    }
  }

  /** add_data_block_to_node on an inode linked to its blocks. If it can grow, the block joins it at the next
      position, or at the last one, when the size has not caught up with the last addition; the block there is
      then leaked. If not, the block is stored past a position that has none, and joins nothing. */
  method GrowNode(d: Disk, x: TNode, ghost n: nat, ghost t: Table)
    returns (ok: bool, ghost t': Table, ghost p: nat, ghost b: nat)
    requires Holding(d, t, x, n)
    modifies d, d.bits, d.blocks, x`ptrs
    ensures ok ==> var k := AddPosition(PtrBlocks(|t[n].data|), x.size);
                   BlockStored(old(d.Vol()), old(x.ptrs), d.Vol(), x.ptrs, k / 1024, k % 1024, p, b)
    ensures ok && CanGrow(|t[n].data|, x.size) ==>
              var k := AddPosition(PtrBlocks(|t[n].data|), x.size);
              k <= |t[n].data| && Added(d, x, n, t, t', k)
    ensures Paid(ok, old(d.Vol()).bm, d.Vol().bm, AddCost(PtrBlocks(|t[n].data|), x.size))
  {
    hide Sound, Linked, LowBits, Local, Displaced, BlockStored, SetPointers, AddPosition, PtrBlocks, CanGrow,
      Paid;
    PointersOf(d, t, x, n);
    ghost var h, k := HeldBy(d, t, x), AddPosition(PtrBlocks(|t[n].data|), x.size);
    t' := t;
    ok, p, b := AddDataBlock(d, x, t);
    if ok && CanGrow(|t[n].data|, x.size) {
      PositionIs(|t[n].data|, x.size);
      ghost var h' := Join(h, d.Vol(), x.ptrs, n, k, p, b, d.lk);
      d.own, d.lk, t' := h'.own, h'.lk, h'.t;
      assert HeldBy(d, t', x) == h';
    }
  }

  lemma Join(h: Held, v': Vol, ptrs': seq<u32>, n: nat, k: nat, p: nat, b: nat, lk: set<nat>) returns (h': Held)
    requires HeldOk(h, n) && SetPointers(h.ptrs) == |h.t[n].ptrs| == PtrBlocks(|h.t[n].data|)
    requires BlockStored(Vol(h.bm, h.blk), h.ptrs, v', ptrs', k / 1024, k % 1024, p, b)
    requires lk == h.lk + Reserved(h.ptrs, k / 1024, p, b) && Sound(v'.bm, h.t, h.own, lk)
    requires b !in h.lk && b !in h.own && (p !in h.lk + h.own.Keys || p in h.ptrs)
    requires k == |h.t[n].data| || k + 1 == |h.t[n].data|
    requires k / 1024 == PtrBlocks(|h.t[n].data|) ==> k == |h.t[n].data| == 1024 * PtrBlocks(|h.t[n].data|)
    requires k / 1024 != PtrBlocks(|h.t[n].data|) && k == |h.t[n].data| ==> k % 1024 != 0
    ensures Grown(h, h', n, k) && h'.bm == v'.bm && h'.blk == v'.blk && h'.ptrs == ptrs'
  {
    hide Sound, HeldOk, Grown, SetPointers, PtrBlocks, PutSlot;
    if k / 1024 == SetPointers(h.ptrs) {
      NewNotLeaked(h, n, p);
      h' := JoinBoth(h, v', ptrs', n, p, b);
    } else {
      h' := JoinSlot(h, v', n, k, p, b);
    }
  }

  /** A block that was free is not leaked. */
  lemma NewNotLeaked(h: Held, n: nat, p: nat)
    requires HeldOk(h, n) && InRegion(p) && !h.bm[p]
    ensures p !in h.lk
  {
  }

  // ---------------------------------------------------------------- finding and dropping blocks

  /** getBlockNumberFromNodeDataBlock, and the lookup in get_data_block_from_node: the number in the slot
      of the k-th data block. */
  method BlockNumber(d: Disk, x: TNode, k: nat, ghost n: nat, ghost t: Table) returns (b: nat)
    requires Holding(d, t, x, n) && k < |t[n].data|
    ensures b == t[n].data[k] && InRegion(b)
  {
    KnownSlot(d.Vol().bm, d.Vol().blk, t, d.own, d.lk, n, x.ptrs, k);
    hide Sound, Linked, Slot;
    var i := k / 1024;
    var pointers := d.blocks[x.ptrs[i]];
    b := Slot(pointers, k % 1024);
  }

  lemma KnownSlot(bm: seq<bool>, blk: seq<Block>, t: Table, own: Owners, lk: set<nat>, n: nat, ptrs: seq<u32>, k: nat)
    requires Sound(bm, t, own, lk) && n in t && Linked(blk, ptrs, t[n]) && |blk| == TOTAL_BLOCKS
    requires k < |t[n].data|
    ensures k / 1024 < |ptrs| && InRegion(ptrs[k / 1024])
    ensures Slot(blk[ptrs[k / 1024]], k % 1024) == t[n].data[k] && InRegion(t[n].data[k])
  {
    assert k / 1024 < |t[n].ptrs|;
    Roles(bm, t, own, lk, n, k / 1024);
    Roles(bm, t, own, lk, n, |t[n].ptrs| + k);
    hide Slot;
    assert DataBlock(blk, ptrs, k) == t[n].data[k];
  }

  /** The size after the last data block is dropped. */
  function ShorterSize(size: nat): nat
  {
    if size < 4096 then 0 else (size / 4096 - 1) * 4096
  }

  /** deleteLastDataBlock: the last data block is freed, with its pointer block if it was alone there, and
      the size falls to the start of the block before it. */
  method DeleteLastDataBlock(d: Disk, x: TNode, ghost n: nat, ghost t: Table) returns (ghost t': Table)
    requires Holding(d, t, x, n) && |t[n].data| == BlockCount(x.Val()) && (x.ptrs[0] == 0 ==> x.size == 0)
    modifies d, d.bits, x`ptrs, x`size
    ensures Holding(d, t', x, n) && |t'[n].data| == BlockCount(x.Val())
    ensures old(x.size) == 0 ==> t' == t && d.Vol() == old(d.Vol()) && d.own == old(d.own)
    ensures old(x.size) > 0 ==> t' == t[n := Shorter(t[n])]
    ensures x.size == ShorterSize(old(x.size))
    ensures d.lk == old(d.lk) && d.Vol().blk == old(d.Vol()).blk
    ensures LowBits(old(d.Vol()).bm, d.Vol().bm) && SameOwners(old(d.own), d.own, n)
  {
    if x.size == 0 {
      t' := t;
    } else {
      assert BlockCount(x.Val()) == x.size / 4096 + 1 by { CountIs(x.Val()); }
      hide Holding, LowBits, SameOwners, BlockCount, Shorter;
      t' := DropLast(d, x, n, t);
    }
  }

  method DropLast(d: Disk, x: TNode, ghost n: nat, ghost t: Table) returns (ghost t': Table)
    requires Holding(d, t, x, n) && |t[n].data| == x.size / 4096 + 1 && x.size > 0
    modifies d, d.bits, x`ptrs, x`size
    ensures Holding(d, t', x, n) && |t'[n].data| == BlockCount(x.Val())
    ensures t' == t[n := Shorter(t[n])]
    ensures x.size == ShorterSize(old(x.size))
    ensures d.lk == old(d.lk) && d.Vol().blk == old(d.Vol()).blk
    ensures LowBits(old(d.Vol()).bm, d.Vol().bm) && SameOwners(old(d.own), d.own, n)
  {
    hide Sound, Linked, SameOwners, LowBits, InRegion, Shorter, Dropped, BlockCount;
    ghost var bm, own, f := d.Vol().bm, d.own, t[n];
    var last := x.size / BLOCK_SIZE;
    UnlinkFree(bm, d.Vol().blk, t, own, d.lk, n, x.ptrs);
    DropBits(d, x, last, n, t);
    x.size := if last == 0 then 0 else (last - 1) * BLOCK_SIZE;
    d.own := own - Dropped(f);
    t' := t[n := Shorter(f)];
    assert BlockCount(x.Val()) == last by { CountAfterDrop(d.Vol().blk, old(x.ptrs), f, x.Val()); }
    assert |Shorter(f).data| == last by { ShorterCount(f); }
  }

  /** The bits and the pointer that go with the last data block. */
  method DropBits(d: Disk, x: TNode, last: nat, ghost n: nat, ghost t: Table)
    requires Holding(d, t, x, n) && |t[n].data| == last + 1
    modifies d.bits, x`ptrs
    ensures last / 1024 < |old(x.ptrs)| && t[n].data[last] < TOTAL_BLOCKS && old(x.ptrs)[last / 1024] < TOTAL_BLOCKS
    ensures |old(d.Vol()).bm| == TOTAL_BLOCKS
    ensures d.Vol() == old(d.Vol()).(bm := BitsAfterDrop(old(d.Vol()).bm, t[n], old(x.ptrs)))
    ensures x.ptrs == ShorterPtrs(old(x.ptrs), last + 1)
  {
    DropPlaces(d.Vol().bm, d.Vol().blk, t, d.own, d.lk, n, x.ptrs);
    var b := BlockNumber(d, x, last, n, t);
    hide Sound, Linked, Holding;
    FreeBlock(d, b);
    if last % 1024 == 0 {
      FreeBlock(d, x.ptrs[last / 1024]);
      x.ptrs := x.ptrs[last / 1024 := 0];
    }
  }

  lemma CountIs(x: Node)
    requires |x.ptrs| == 1000 && (x.ptrs[0] == 0 ==> x.size == 0) && x.size > 0
    ensures x.ptrs[0] != 0 && BlockCount(x) == x.size / 4096 + 1
  {
  }

  lemma ShorterCount(f: Extent)
    requires |f.data| > 0 && |f.ptrs| == PtrBlocks(|f.data|)
    ensures |Shorter(f).data| == |f.data| - 1
  {
  }

  /** The bits once the last data block, and its pointer block if it was alone there, are freed. */
  function BitsAfterDrop(bm: seq<bool>, f: Extent, ptrs: seq<u32>): seq<bool>
    requires |bm| == TOTAL_BLOCKS && |f.data| > 0 && (|f.data| - 1) / 1024 < |ptrs|
    requires f.data[|f.data| - 1] < TOTAL_BLOCKS && ptrs[(|f.data| - 1) / 1024] < TOTAL_BLOCKS
  {
    var k := |f.data| - 1;
    var bm1 := bm[f.data[k] := false];
    if k % 1024 == 0 then bm1[ptrs[k / 1024] := false] else bm1
  }

  lemma UnlinkFree(bm: seq<bool>, blk: seq<Block>, t: Table, own: Owners, lk: set<nat>, n: nat, ptrs: seq<u32>)
    requires Sound(bm, t, own, lk) && n in t && Linked(blk, ptrs, t[n]) && |t[n].data| > 0
    ensures Sized(t[n]) && |bm| == TOTAL_BLOCKS && (|t[n].data| - 1) / 1024 < |ptrs|
    ensures t[n].data[|t[n].data| - 1] < TOTAL_BLOCKS && ptrs[(|t[n].data| - 1) / 1024] < TOTAL_BLOCKS
    ensures Sound(BitsAfterDrop(bm, t[n], ptrs), t[n := Shorter(t[n])], own - Dropped(t[n]), lk)
    ensures Linked(blk, ShorterPtrs(ptrs, |t[n].data|), Shorter(t[n]))
    ensures LowBits(bm, BitsAfterDrop(bm, t[n], ptrs)) && SameOwners(own, own - Dropped(t[n]), n)
  {
    hide Sound, Linked, Shorter, Dropped, BitsAfterDrop, LowBits, SameOwners;
    DropPlaces(bm, blk, t, own, lk, n, ptrs);
    LinkShorter(blk, ptrs, t[n]);
    DropOwners(bm, t, own, lk, n);
    UnlinkFreeSound(bm, blk, t, own, lk, n, ptrs);
    DropLowBits(bm, t[n], ptrs);
  }

  /** Where the last data block and its pointer block are. */
  lemma DropPlaces(bm: seq<bool>, blk: seq<Block>, t: Table, own: Owners, lk: set<nat>, n: nat, ptrs: seq<u32>)
    requires Sound(bm, t, own, lk) && n in t && Linked(blk, ptrs, t[n]) && |t[n].data| > 0
    ensures Sized(t[n]) && |bm| == TOTAL_BLOCKS
    ensures var k := |t[n].data| - 1;
            k / 1024 < |t[n].ptrs| <= |ptrs| && ptrs[k / 1024] == t[n].ptrs[k / 1024]
            && InRegion(t[n].data[k]) && InRegion(ptrs[k / 1024])
  {
    var k := |t[n].data| - 1;
    assert k / 1024 < |t[n].ptrs|;
    Roles(bm, t, own, lk, n, k / 1024);
    Roles(bm, t, own, lk, n, |t[n].ptrs| + k);
  }

  lemma DropLowBits(bm: seq<bool>, f: Extent, ptrs: seq<u32>)
    requires |bm| == TOTAL_BLOCKS && |f.data| > 0 && (|f.data| - 1) / 1024 < |ptrs|
    requires InRegion(f.data[|f.data| - 1]) && InRegion(ptrs[(|f.data| - 1) / 1024])
    ensures LowBits(bm, BitsAfterDrop(bm, f, ptrs))
  {
  }

  lemma DropOwners(bm: seq<bool>, t: Table, own: Owners, lk: set<nat>, n: nat)
    requires Sound(bm, t, own, lk) && n in t && |t[n].data| > 0
    ensures Sized(t[n]) && SameOwners(own, own - Dropped(t[n]), n)
  {
    UnlinkSound(bm, t, own, lk, n);
    OwnBlocks(bm, t, own, lk, n);
    hide Sound, ExtentHeld, Shorter, Dropped;
  }

  lemma UnlinkFreeSound(bm: seq<bool>, blk: seq<Block>, t: Table, own: Owners, lk: set<nat>, n: nat, ptrs: seq<u32>)
    requires Sound(bm, t, own, lk) && n in t && Linked(blk, ptrs, t[n]) && |t[n].data| > 0
    requires Sized(t[n]) && |bm| == TOTAL_BLOCKS
    requires var k := |t[n].data| - 1;
             k / 1024 < |t[n].ptrs| <= |ptrs| && ptrs[k / 1024] == t[n].ptrs[k / 1024]
             && InRegion(t[n].data[k]) && InRegion(ptrs[k / 1024])
    ensures Sound(BitsAfterDrop(bm, t[n], ptrs), t[n := Shorter(t[n])], own - Dropped(t[n]), lk)
  {
    hide Sound, Linked, Shorter;
    var f, k := t[n], |t[n].data| - 1;
    UnlinkSound(bm, t, own, lk, n);
    DroppedNotLeaked(bm, t, own, lk, n);
    var t', own', lk1 := t[n := Shorter(f)], own - Dropped(f), lk + Dropped(f);
    FreeSound(bm, t', own', lk1, f.data[k]);
    if k % 1024 == 0 {
      FreeSound(bm[f.data[k] := false], t', own', lk1 - {f.data[k]}, f.ptrs[k / 1024]);
      assert lk1 - {f.data[k]} - {f.ptrs[k / 1024]} == lk;
    } else {
      assert lk1 - {f.data[k]} == lk;
    }
  }

  lemma DroppedNotLeaked(bm: seq<bool>, t: Table, own: Owners, lk: set<nat>, n: nat)
    requires Sound(bm, t, own, lk) && n in t && |t[n].data| > 0
    ensures Sized(t[n]) && Dropped(t[n]) !! lk
    ensures t[n].ptrs[(|t[n].data| - 1) / 1024] != t[n].data[|t[n].data| - 1]
  {
    UnlinkSound(bm, t, own, lk, n);
    OwnBlocks(bm, t, own, lk, n);
    DistinctPtrs(bm, t, own, lk, n);
    hide Sound, ExtentHeld, Shorter;
  }

  lemma CountAfterDrop(blk: seq<Block>, ptrs: seq<u32>, f: Extent, y: Node)
    requires Linked(blk, ptrs, f) && |f.data| > 0 && (|f.data| - 1) / 1024 < |ptrs|
    requires y.ptrs == ShorterPtrs(ptrs, |f.data|)
    requires |f.data| > 1 ==> y.size == (|f.data| - 2) * 4096
    ensures BlockCount(y) == |f.data| - 1
  {
    assert |f.ptrs| > 0;
  }

  /** An inode without its name and state. */
  function Erased(x: Node): Node
    requires Fits(x)
  {
    x.(name := x.name[0 := 0], state := 0)
  }

  /** delete_node: the inode's name and state are cleared, its other fields stay, and its bit is freed. */
  method DeleteNode(d: Disk, n: nat)
    requires d.Sizes() && n < NODE_TABLE_BLOCKS
    modifies d.bits, d.blocks
    ensures Fits(old(NodeAt(d.Vol().blk, n)))
    ensures d.Vol().bm == old(d.Vol()).bm[n + 2 := false]
    ensures d.Vol().blk == old(d.Vol()).blk[n + 2 := NodeToBlock(Erased(old(NodeAt(d.Vol().blk, n))))]
  {
    hide NodeToBlock, BlockToNode;
    var x := d.ReadNode(n);
    x.name := x.name[0 := 0];
    x.state := 0;
    d.UnmapNode(x, n);
    FreeBlock(d, n + 2);
  }

  lemma PointersSet(blk: seq<Block>, ptrs: seq<u32>, f: Extent)
    requires Linked(blk, ptrs, f)
    ensures |ptrs| == 1000 && |f.ptrs| == PtrBlocks(|f.data|) && (ptrs[0] == 0 <==> |f.data| == 0)
  {
  }
}
