/** How many blocks of the data region are free, and what reserving some of them costs. */
module FreeSpace {
  import opened Layout
  import opened Volume

  function FreeBlocks(bm: seq<bool>): set<nat>
  {
    set b: nat | b < |bm| && DATA_INITIAL_BLOCK <= b < TOTAL_BLOCKS && !bm[b]
  }

  function Room(bm: seq<bool>): nat
  {
    |FreeBlocks(bm)|
  }

  /** An operation succeeds exactly when there is room for its cost, and then leaves that much less; when it
      fails it has left none. */
  ghost predicate Paid(ok: bool, bm: seq<bool>, bm': seq<bool>, cost: nat)
  {
    && (ok <==> Room(bm) >= cost)
    && (if ok then Room(bm') + cost == Room(bm) else Room(bm') == 0)
  }

  lemma RoomTaken(bm: seq<bool>, b: nat)
    requires |bm| == TOTAL_BLOCKS && InRegion(b) && !bm[b]
    ensures Room(bm[b := true]) + 1 == Room(bm)
  {
    assert FreeBlocks(bm) == FreeBlocks(bm[b := true]) + {b};
  }

  lemma NoRoom(bm: seq<bool>)
    requires |bm| == TOTAL_BLOCKS && forall b | DATA_INITIAL_BLOCK <= b < TOTAL_BLOCKS :: bm[b]
    ensures Room(bm) == 0
  {
    assert FreeBlocks(bm) == {};
  }

  /** Bits of the inode table do not count. */
  lemma RoomSame(bm: seq<bool>, bm': seq<bool>)
    requires |bm| == |bm'| && forall b | DATA_INITIAL_BLOCK <= b < |bm| :: bm'[b] == bm[b]
    ensures Room(bm') == Room(bm)
  {
    assert FreeBlocks(bm') == FreeBlocks(bm);
  }

  /** Two payments in a row. */
  lemma PaidBoth(ok: bool, bm: seq<bool>, bm1: seq<bool>, cost: nat, ok': bool, bm2: seq<bool>, cost': nat)
    requires Paid(ok, bm, bm1, cost) && if ok then Paid(ok', bm1, bm2, cost') else bm2 == bm1
    ensures Paid(ok && ok', bm, bm2, cost + cost')
  {
  }
}
