/** The mounted volume: the block array, the bitmap, and the copies of inodes held in memory. The ghost
    fields are the owner map and the leaked set of the block invariant. */
module DiskState {
  import opened Bytes
  import opened Layout
  import opened Volume
  import opened Inodes

  /** t_node: a private copy of an inode, changed in memory until it is written back. */
  class TNode {
    var state: byte
    var name: seq<byte>
    var parent: nat
    var size: nat
    var ctime: nat
    var mtime: nat
    var ptrs: seq<u32>

    ghost function Val(): Node
      reads this
    {
      Node(state, name, parent, size, ctime, mtime, ptrs)
    }

    constructor (x: Node)
      ensures Val() == x
    {
      state, name, parent, size := x.state, x.name, x.parent, x.size;
      ctime, mtime, ptrs := x.ctime, x.mtime, x.ptrs;
    }
  }

  class Disk {
    const bits: array<bool>
    const blocks: array<Block>
    ghost var own: Owners
    ghost var lk: set<nat>

    constructor (bits: array<bool>, blocks: array<Block>)
      ensures this.bits == bits && this.blocks == blocks && own == map[] && lk == {}
    {
      this.bits, this.blocks := bits, blocks;
      own, lk := map[], {};
    }

    ghost predicate Sizes()
    {
      bits.Length == TOTAL_BLOCKS && blocks.Length == TOTAL_BLOCKS
    }

    ghost function Vol(): Vol
      reads bits, blocks
    {
      Volume.Vol(bits[..], blocks[..])
    }

    ghost predicate Ok()
      reads this, bits, blocks
    {
      Sizes() && VolOk(Vol(), own, lk)
    }

    /** The in-place update of one block. */
    method WriteBlock(b: nat, x: Block)
      requires Sizes() && b < TOTAL_BLOCKS
      modifies blocks
      ensures Vol() == old(Vol()).(blk := old(blocks[..])[b := x])
    {
      blocks[b] := x;
      assert blocks[..] == old(blocks[..])[b := x];
    }

    method SetBit(b: nat, used: bool)
      requires Sizes() && b < TOTAL_BLOCKS
      modifies bits
      ensures Vol() == old(Vol()).(bm := old(bits[..])[b := used])
    {
      bits[b] := used;
      assert bits[..] == old(bits[..])[b := used];
    }

    /** read_node: the inode's block, decoded into a fresh copy. */
    method ReadNode(n: nat) returns (x: TNode)
      requires Sizes() && n < NODE_TABLE_BLOCKS
      ensures fresh(x) && x.Val() == NodeAt(Vol().blk, n)
    {
      var decoded := BlockToNode(blocks[n + 2]);
      x := new TNode(decoded);
    }

    /** unmap_and_destroy_node: the copy is written over the inode's block. */
    method UnmapNode(x: TNode, n: nat)
      requires Sizes() && n < NODE_TABLE_BLOCKS && Fits(x.Val())
      modifies blocks
      ensures Vol() == old(Vol()).(blk := old(blocks[..])[n + 2 := NodeToBlock(x.Val())])
    {
      var b := PackNode(Node(x.state, x.name, x.parent, x.size, x.ctime, x.mtime, x.ptrs), blocks[n + 2]);
      WriteBlock(n + 2, b);
    }

    /** A copy that was only read is written back: the volume does not change. */
    method UnmapRead(x: TNode, n: nat)
      requires Sizes() && n < NODE_TABLE_BLOCKS && x.Val() == NodeAt(Vol().blk, n)
      modifies blocks
      ensures Vol() == old(Vol())
    {
      UnmapNode(x, n);
      BlockRoundTrip(old(blocks[n + 2]));
      assert blocks[..] == old(blocks[..]);
    }
  }
}
