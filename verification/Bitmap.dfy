/** bitmap.c: first-fit reservation over two disjoint regions. */
module Bitmap {
  import opened Layout
  import opened Volume
  import opened DiskState
  import opened FreeSpace

  /** Blocks [from, to) of the region are all in use. */
  ghost predicate Full(bm: seq<bool>, from: nat, to: nat)
  {
    to <= |bm| && forall i | from <= i < to :: bm[i]
  }

  /** block_is_free. */
  method BlockIsFree(d: Disk, b: nat) returns (free: bool)
    requires d.Sizes() && b < TOTAL_BLOCKS
    ensures free <==> !d.Vol().bm[b]
  {
    free := !d.bits[b];
  }

  /** Reserves the first free block of the region; fails, where the program exits, only when there is
      none. */
  method GetFreeBlock(d: Disk, from: nat, to: nat) returns (ok: bool, b: nat)
    requires d.Sizes() && from <= to <= TOTAL_BLOCKS
    modifies d.bits
    ensures !ok ==> d.Vol() == old(d.Vol()) && Full(d.Vol().bm, from, to)
    ensures ok ==> from <= b < to && !old(d.Vol()).bm[b] && Full(old(d.Vol()).bm, from, b)
    ensures ok ==> d.Vol() == old(d.Vol()).(bm := old(d.Vol()).bm[b := true])
  {
    b := from;
    ok := false;
    while b < to && !ok
      invariant from <= b <= to && (ok ==> b < to && !d.bits[b])
      invariant d.Vol() == old(d.Vol()) && forall i | from <= i < b :: d.bits[i]
      decreases TOTAL_BLOCKS - b, if ok then 0 else 1
    {
      ok := BlockIsFree(d, b);
      if !ok {
        b := b + 1;
      }
    }
    if ok {
      d.SetBit(b, true);
    }
  }

  method GetFreeNodeBlock(d: Disk) returns (ok: bool, b: nat)
    requires d.Sizes()
    modifies d.bits
    ensures !ok ==> d.Vol() == old(d.Vol()) && Full(d.Vol().bm, NODE_TABLE_INITIAL_BLOCK, DATA_INITIAL_BLOCK)
    ensures ok ==> NODE_TABLE_INITIAL_BLOCK <= b < DATA_INITIAL_BLOCK
    ensures ok ==> !old(d.Vol()).bm[b] && Full(old(d.Vol()).bm, NODE_TABLE_INITIAL_BLOCK, b)
    ensures ok ==> d.Vol() == old(d.Vol()).(bm := old(d.Vol()).bm[b := true])
  {
    ok, b := GetFreeBlock(d, NODE_TABLE_INITIAL_BLOCK, NODE_TABLE_INITIAL_BLOCK + NODE_TABLE_BLOCKS);
  }

  /** A reserved data block is at first used and unreferenced. */
  method GetFreeDataBlock(d: Disk, ghost t: Table) returns (ok: bool, b: nat)
    requires d.Sizes() && Sound(d.Vol().bm, t, d.own, d.lk)
    modifies d`lk, d.bits
    ensures !ok ==> d.Vol() == old(d.Vol()) && d.lk == old(d.lk) && Full(d.Vol().bm, DATA_INITIAL_BLOCK, TOTAL_BLOCKS)
    ensures ok ==> InRegion(b) && !old(d.Vol()).bm[b] && Full(old(d.Vol()).bm, DATA_INITIAL_BLOCK, b)
    ensures ok ==> d.Vol() == old(d.Vol()).(bm := old(d.Vol()).bm[b := true])
    ensures ok ==> d.lk == old(d.lk) + {b} && b !in old(d.lk) && b !in d.own
    ensures Sound(d.Vol().bm, t, d.own, d.lk)
    ensures Paid(ok, old(d.Vol()).bm, d.Vol().bm, 1)
  {
    hide Sound;
    ghost var bm := d.Vol().bm;
    ok, b := GetFreeBlock(d, NODE_TABLE_INITIAL_BLOCK + NODE_TABLE_BLOCKS, TOTAL_BLOCKS);
    ReservePaid(ok, bm, b, d.Vol().bm);
    if ok {
      ReserveSound(bm, t, d.own, d.lk, b);
      d.lk := d.lk + {b};
    }
  }

  lemma ReservePaid(ok: bool, bm: seq<bool>, b: nat, bm': seq<bool>)
    requires |bm| == TOTAL_BLOCKS
    requires if ok then InRegion(b) && !bm[b] && bm' == bm[b := true]
             else bm' == bm && Full(bm, DATA_INITIAL_BLOCK, TOTAL_BLOCKS)
    ensures Paid(ok, bm, bm', 1)
  {
    if ok {
      RoomTaken(bm, b);
    } else {
      NoRoom(bm);
    }
  }

  method FreeBlock(d: Disk, b: nat)
    requires d.Sizes() && b < TOTAL_BLOCKS
    modifies d.bits
    ensures d.Vol() == old(d.Vol()).(bm := old(d.Vol()).bm[b := false])
  {
    d.SetBit(b, false);
  }
}
