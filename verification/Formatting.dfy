/** Formatting a disk and mounting it: the header, the bitmap as bytes with the first bit highest, and an
    empty root directory. */
module Formatting {
  import opened Bytes
  import opened Layout
  import opened Volume
  import opened Graph
  import opened Namespace
  import opened Inodes
  import opened DiskState
  import opened DirStore
  import opened SacDirs

  const BITMAP_SIZE := 375

  // ---------------------------------------------------------------- the bitmap as bytes

  /** A row of bits read as a number, the first bit highest. */
  function BitsValue(s: seq<bool>): nat
  {
    if s == [] then 0 else 2 * BitsValue(s[..|s| - 1]) + if s[|s| - 1] then 1 else 0
  }

  function Power2(n: nat): nat
  {
    if n == 0 then 1 else 2 * Power2(n - 1)
  }

  lemma {:induction false} BitsValueFits(s: seq<bool>)
    ensures BitsValue(s) < Power2(|s|)
    decreases |s|
  {
    if s != [] {
      BitsValueFits(s[..|s| - 1]);
    }
  }

  lemma EightBits()
    ensures Power2(8) == 256
  {
    assert Power2(4) == 16;
  }

  function ByteOfBits(s: seq<bool>): byte
    requires |s| == 8
  {
    BitsValueFits(s);
    EightBits();
    BitsValue(s)
  }

  function Weight(bit: bool, weight: nat): nat
  {
    if bit then weight else 0
  }

  /** The first bit is the highest. */
  lemma BitWeights(s: seq<bool>)
    requires |s| == 8
    ensures ByteOfBits(s) == Weight(s[0], 128) + Weight(s[1], 64) + Weight(s[2], 32) + Weight(s[3], 16)
                             + Weight(s[4], 8) + Weight(s[5], 4) + Weight(s[6], 2) + Weight(s[7], 1)
  {
    hide BitsValue;
    FourBits(s, 0);
    FourBits(s, 4);
    NextBit(s, 0);
    assert s[..8] == s;
  }

  lemma FourBits(s: seq<bool>, k: nat)
    requires k + 4 <= |s|
    ensures BitsValue(s[..k + 4]) == 16 * BitsValue(s[..k]) + Weight(s[k], 8) + Weight(s[k + 1], 4)
                                     + Weight(s[k + 2], 2) + Weight(s[k + 3], 1)
  {
    hide BitsValue;
    NextBit(s, k);
    NextBit(s, k + 1);
    NextBit(s, k + 2);
    NextBit(s, k + 3);
  }

  lemma NextBit(s: seq<bool>, k: nat)
    requires k < |s|
    ensures BitsValue(s[..0]) == 0 && BitsValue(s[..k + 1]) == 2 * BitsValue(s[..k]) + Weight(s[k], 1)
  {
    assert s[..k + 1][..k] == s[..k];
  }

  /** The bytes of the bitmap, bit by bit. */
  lemma PackedByte(bm: seq<bool>, k: nat)
    requires |bm| == 3000 && k < 375
    ensures PackBits(bm)[k] as int ==
            Weight(bm[8 * k], 128) + Weight(bm[8 * k + 1], 64) + Weight(bm[8 * k + 2], 32)
            + Weight(bm[8 * k + 3], 16) + Weight(bm[8 * k + 4], 8) + Weight(bm[8 * k + 5], 4)
            + Weight(bm[8 * k + 6], 2) + Weight(bm[8 * k + 7], 1)
  {
    hide ByteOfBits;
    BitWeights(bm[8 * k..8 * k + 8]);
  }

  function Halved(x: nat, times: nat): nat
  {
    if times == 0 then x else Halved(x / 2, times - 1)
  }

  /** bitarray_test_bit, in the mode whose first bit is the highest. */
  function BitOf(x: byte, j: nat): bool
    requires j < 8
  {
    Halved(x, 7 - j) % 2 == 1
  }

  function PackBits(bm: seq<bool>): (s: seq<byte>)
    requires |bm| == 8 * BITMAP_SIZE
    ensures |s| == BITMAP_SIZE
  {
    seq(BITMAP_SIZE, k requires 0 <= k < BITMAP_SIZE => ByteOfBits(bm[8 * k..8 * k + 8]))
  }

  function UnpackBits(s: seq<byte>): (bm: seq<bool>)
    requires |s| == BITMAP_SIZE
    ensures |bm| == 8 * BITMAP_SIZE
  {
    seq(8 * BITMAP_SIZE, i requires 0 <= i < 8 * BITMAP_SIZE => BitOf(s[i / 8], i % 8))
  }

  lemma {:induction false} BitAt(s: seq<bool>, j: nat)
    requires j < |s|
    ensures Halved(BitsValue(s), |s| - 1 - j) % 2 == 1 <==> s[j]
    decreases |s|
  {
    var rest, last := s[..|s| - 1], if s[|s| - 1] then 1 else 0;
    var x, y := BitsValue(s), BitsValue(rest);
    assert x == 2 * y + last;
    hide BitsValue, Halved;
    HalvedSteps(x, |s| - 1 - j);
    if j < |s| - 1 {
      BitAt(rest, j);
      assert x / 2 == y;
    }
  }

  lemma HalvedSteps(x: nat, times: nat)
    ensures Halved(x, times) == if times == 0 then x else Halved(x / 2, times - 1)
  {
  }

  lemma BitOfByte(s: seq<bool>, j: nat)
    requires |s| == 8 && j < 8
    ensures BitOf(ByteOfBits(s), j) == s[j]
  {
    BitAt(s, j);
  }

  /** The bitmap loaded from a disk is the one that was saved. */
  lemma BitsRoundTrip(bm: seq<bool>)
    requires |bm| == 8 * BITMAP_SIZE
    ensures UnpackBits(PackBits(bm)) == bm
  {
    hide BitOf, ByteOfBits;
    forall i | 0 <= i < |bm|
      ensures UnpackBits(PackBits(bm))[i] == bm[i]
    {
      var k, j := i / 8, i % 8;
      BitOfByte(bm[8 * k..8 * k + 8], j);
      assert bm[8 * k..8 * k + 8][j] == bm[i];
    }
  }

  /** bitmap_to_block: the bytes of the bitmap at the start of its block. */
  method BitmapToBlock(bm: seq<bool>, oldBlock: Block) returns (b: Block)
    requires |bm| == 8 * BITMAP_SIZE
    ensures b[..BITMAP_SIZE] == PackBits(bm) && b[BITMAP_SIZE..] == oldBlock[BITMAP_SIZE..]
  {
    var bytes := PackBits(bm);
    b := oldBlock;
    for i := 0 to BITMAP_SIZE
      invariant b[..i] == bytes[..i] && b[i..] == oldBlock[i..]
    {
      b := b[i := bytes[i]];
    }
  }

  /** create_default_bitmap: the header, the bitmap's block and the root's block are in use. */
  method CreateDefaultBitmap() returns (bm: seq<bool>)
    ensures |bm| == TOTAL_BLOCKS && forall b | 0 <= b < TOTAL_BLOCKS :: bm[b] <==> b <= 2
  {
    bm := seq(TOTAL_BLOCKS, _ => false);
    bm := bm[0 := true];
    for i := 0 to BITMAP_BLOCKS
      invariant |bm| == TOTAL_BLOCKS && forall b | 0 <= b < TOTAL_BLOCKS :: bm[b] <==> b <= i
    {
      bm := bm[i + 1 := true];
    }
    bm := bm[BITMAP_BLOCKS + 1 := true];
  }

  // ---------------------------------------------------------------- format and mount

  /** create_root_dir. */
  function RootNode(now: nat): Node
  {
    NewNode(2, [SLASH], 0, now)
  }

  ghost predicate Formatted(blk: seq<Block>, now: nat)
  {
    && |blk| == TOTAL_BLOCKS && now < 0x1_0000_0000_0000_0000
    && UnpackHeader(blk[0]) == Header([83, 65, 67], 1, BITMAP_INITIAL_BLOCK, BITMAP_SIZE)
    && (forall b | 0 <= b < TOTAL_BLOCKS :: UnpackBits(blk[1][..BITMAP_SIZE])[b] <==> b <= 2)
    && NodeAt(blk, 0) == RootNode(now)
  }

  lemma HeaderIsBytes()
    ensures BITMAP_SIZE == 375
    ensures [83, 65, 67] + Le(1, 4) + Le(BITMAP_INITIAL_BLOCK, 4) + Le(BITMAP_SIZE, 4) ==
            [83, 65, 67, 1, 0, 0, 0, 1, 0, 0, 0, 119, 1, 0, 0]
  {
    SmallWords();
    hide Le;
  }

  lemma SmallWords()
    ensures Le(0, 4) == [0, 0, 0, 0] && Le(1, 4) == [1, 0, 0, 0] && Le(375, 4) == [119, 1, 0, 0]
  {
    hide Le;
    WordBytes(0);
    WordBytes(1);
    WordBytes(375);
  }

  lemma BitmapIsBytes(bm: seq<bool>)
    requires |bm| == 3000 && forall b | 0 <= b < 3000 :: bm[b] <==> b <= 2
    ensures PackBits(bm)[0] == 224 && forall i | 1 <= i < 375 :: PackBits(bm)[i] == 0
  {
    hide PackBits;
    PackedByte(bm, 0);
    forall i | 1 <= i < 375
      ensures PackBits(bm)[i] == 0
    {
      PackedByte(bm, i);
    }
  }

  lemma RootIsBytes(now: nat)
    requires Fits(RootNode(now))
    ensures var b := NodeToBlock(RootNode(now));
            && b[..3] == [2, 47, 0] && b[72..80] == [0, 0, 0, 0, 0, 0, 0, 0]
            && b[80..88] == Le(now, 8) && b[88..96] == Le(now, 8) && (forall i | 96 <= i < 4096 :: b[i] == 0)
  {
    var x := RootNode(now);
    var b := NodeToBlock(x);
    SmallWords();
    NodeBytes(x, 0);
    assert x.name == NameBuffer([SLASH]);
    hide Le, NodeToBlock, NameBuffer, RootNode;
    assert b[1] == b[1..72][0] && b[2] == b[1..72][1];
    assert b[72..80] == b[72..76] + b[76..80];
    assert forall j | 0 <= j < 1000 :: x.ptrs[j] == 0;
    forall i | 96 <= i < 4096
      ensures b[i] == 0
    {
      PointerIsZero(x, i);
    }
  }

  lemma PointerIsZero(x: Node, i: nat)
    requires Fits(x) && 96 <= i < 4096 && forall j | 0 <= j < 1000 :: x.ptrs[j] == 0
    ensures NodeToBlock(x)[i] == 0
  {
    var k, b := (i - 96) / 4, NodeToBlock(x);
    SmallWords();
    NodeBytes(x, k);
    hide *;
    var w, j := b[96 + 4 * k..100 + 4 * k], (i - 96) % 4;
    assert w == [0, 0, 0, 0];
    assert w[j] == b[i];
  }

  /** What that is, byte by byte. */
  lemma FormatIsBytes(blk: seq<Block>, bm: seq<bool>, now: nat)
    requires |blk| == TOTAL_BLOCKS && now < 0x1_0000_0000_0000_0000
    requires |bm| == TOTAL_BLOCKS && forall b | 0 <= b < TOTAL_BLOCKS :: bm[b] <==> b <= 2
    requires blk[0][..15] == [83, 65, 67] + Le(1, 4) + Le(BITMAP_INITIAL_BLOCK, 4) + Le(BITMAP_SIZE, 4)
    requires blk[1][..BITMAP_SIZE] == PackBits(bm)
    requires Fits(RootNode(now)) && blk[2] == NodeToBlock(RootNode(now))
    ensures blk[0][..15] == [83, 65, 67, 1, 0, 0, 0, 1, 0, 0, 0, 119, 1, 0, 0]
    ensures blk[1][0] == 224 && forall i | 1 <= i < 375 :: blk[1][i] == 0
    ensures blk[2][..3] == [2, 47, 0] && blk[2][72..80] == [0, 0, 0, 0, 0, 0, 0, 0]
    ensures blk[2][80..88] == Le(now, 8) && blk[2][88..96] == Le(now, 8)
    ensures forall i | 96 <= i < 4096 :: blk[2][i] == 0
  {
    hide Fits, NodeToBlock, RootNode, PackBits, Le;
    HeaderIsBytes();
    BitmapIsBytes(bm);
    RootIsBytes(now);
  }

  /** format_disk: the header; the first three bits of the bitmap set; and the root's inode, a directory named
      "/" with no parent, no bytes and no pointer. What the other blocks hold does not matter. */
  method FormatDisk(blocks: array<Block>, now: nat)
    requires blocks.Length == TOTAL_BLOCKS && now < 0x1_0000_0000_0000_0000
    modifies blocks
    ensures Formatted(blocks[..], now)
    ensures blocks[0][..15] == [83, 65, 67, 1, 0, 0, 0, 1, 0, 0, 0, 119, 1, 0, 0]
    ensures blocks[1][0] == 224 && forall i | 1 <= i < 375 :: blocks[1][i] == 0
    ensures blocks[2][..3] == [2, 47, 0] && blocks[2][72..80] == [0, 0, 0, 0, 0, 0, 0, 0]
    ensures blocks[2][80..88] == Le(now, 8) && blocks[2][88..96] == Le(now, 8)
    ensures forall i | 96 <= i < 4096 :: blocks[2][i] == 0
    ensures forall b | 3 <= b < TOTAL_BLOCKS :: blocks[b] == old(blocks[b])
  {
    var bm := CreateDefaultBitmap();
    var b := PackHeader(Header([83, 65, 67], 1, BITMAP_INITIAL_BLOCK, BITMAP_SIZE), blocks[0]);
    blocks[0] := b;
    b := BitmapToBlock(bm, blocks[1]);
    blocks[1] := b;
    NewNodeOk(2, [SLASH], 0, now);
    NodeRoundTrip(RootNode(now));
    b := PackNode(RootNode(now), blocks[2]);
    blocks[2] := b;
    BitsRoundTrip(bm);
    assert blocks[1][..BITMAP_SIZE] == PackBits(bm);
    hide NodeToBlock, BlockToNode, UnpackHeader, PackBits, UnpackBits, RootNode;
    FormatIsBytes(blocks[..], bm, now);
    assert NodeAt(blocks[..], 0) == BlockToNode(blocks[2]);
  }

  /** load_bitmap. */
  method Mount(blocks: array<Block>) returns (d: Disk)
    requires blocks.Length == TOTAL_BLOCKS
    ensures fresh(d) && fresh(d.bits) && d.blocks == blocks && d.own == map[] && d.lk == {} && d.Sizes()
    ensures d.Vol() == Vol(UnpackBits(blocks[1][..BITMAP_SIZE]), blocks[..])
  {
    var bm := UnpackBits(blocks[1][..BITMAP_SIZE]);
    hide UnpackBits;
    var bits := new bool[TOTAL_BLOCKS](i requires 0 <= i < TOTAL_BLOCKS => bm[i]);
    d := new Disk(bits, blocks);
    assert bits[..] == bm;
  }

  /** A freshly formatted volume: sound, with nothing leaked, and only the root directory. */
  lemma FreshVolume(bm: seq<bool>, blk: seq<Block>, now: nat)
    requires |bm| == TOTAL_BLOCKS && (forall b | 0 <= b < TOTAL_BLOCKS :: bm[b] <==> b <= 2)
    requires |blk| == TOTAL_BLOCKS && NodeAt(blk, 0) == RootNode(now) && now < 0x1_0000_0000_0000_0000
    ensures VolOk(Vol(bm, blk), map[], {})
    ensures GraphOf(Vol(bm, blk)) == map[0 := Obj(0, Dir([]))]
  {
    hide NodeAt, RootNode, NodeOk, ExtentOf, ObjOf;
    RootLine(blk, now);
    assert forall n: nat | n < NODE_TABLE_BLOCKS :: Live(bm, n) <==> n == 0;
    assert TableOf(Vol(bm, blk)) == map[0 := Extent([], [])];
  }

  lemma RootLine(blk: seq<Block>, now: nat)
    requires now < 0x1_0000_0000_0000_0000
    ensures NodeOk(RootNode(now)) && ExtentOf(blk, RootNode(now)) == Extent([], [])
    ensures ObjOf(blk, RootNode(now)) == Obj(0, Dir([]))
  {
    hide NodeOk, ExtentOf, ObjOf, Linked;
    NewNodeOk(2, [SLASH], 0, now);
    NewObj(blk, RootNode(now));
    LinkedIsExtent(blk, RootNode(now), Extent([], []));
  }

  lemma RootOnly()
    ensures var g: Graph := map[0 := Obj(0, Dir([]))]; Tree(g) && View(g) == imap[[] := ADir(0)]
  {
    var g: Graph := map[0 := Obj(0, Dir([]))];
    assert Resolve(g, []) == Some(0);
    assert Reached(g, 0);
    assert DirOk(g, 0, []);
    forall p: Path
      ensures SameAt(View(g), imap[[] := ADir(0)], p)
    {
      if p != [] {
        NoChildren(g, p);
      }
    }
    SameEverywhere(View(g), imap[[] := ADir(0)]);
  }

  lemma NoChildren(g: Graph, p: Path)
    requires forall e, x :: Child(g, e, x) == None
    requires p != []
    ensures Resolve(g, p) == None
  {
  }

  /** Formatting and mounting gives an empty file system that keeps the whole invariant. */
  method FormatAndMount(blocks: array<Block>, now: nat) returns (d: Disk)
    requires blocks.Length == TOTAL_BLOCKS && now < 0x1_0000_0000_0000_0000
    modifies blocks
    ensures fresh(d) && fresh(d.bits) && d.blocks == blocks
    ensures FsOk(d) && d.lk == {} && Ns(d) == imap[[] := ADir(0)]
  {
    hide Formatted, UnpackBits, UnpackHeader, VolOk, GraphOf, View, Tree;
    FormatDisk(blocks, now);
    d := Mount(blocks);
    FormattedIsFresh(blocks[..], now);
    RootOnly();
  }

  lemma FormattedIsFresh(blk: seq<Block>, now: nat)
    requires Formatted(blk, now)
    ensures |blk| == TOTAL_BLOCKS
    ensures var v := Vol(UnpackBits(blk[1][..BITMAP_SIZE]), blk);
            VolOk(v, map[], {}) && GraphOf(v) == map[0 := Obj(0, Dir([]))]
  {
    hide UnpackBits, UnpackHeader, VolOk, GraphOf, RootNode, NodeAt;
    FreshVolume(UnpackBits(blk[1][..BITMAP_SIZE]), blk, now);
  }
}
