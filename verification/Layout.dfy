/** On-disk layout: the header, the one-block inode and the 128-byte directory entry. */
module Layout {
  import opened Bytes

  const BLOCK_SIZE := 4096
  const TOTAL_BLOCKS := 3000
  const BITMAP_INITIAL_BLOCK := 1
  const BITMAP_BLOCKS := 1
  const NODE_TABLE_INITIAL_BLOCK := 2
  const NODE_TABLE_BLOCKS := 32
  const DATA_INITIAL_BLOCK := 34
  const DIR_ENTRY_SIZE := 128

  /** disk.h's constants, as numbers. */
  lemma Constants()
    ensures BLOCK_SIZE == 4096 && TOTAL_BLOCKS == 3000 && DIR_ENTRY_SIZE == 128
    ensures NODE_TABLE_INITIAL_BLOCK == 2 && NODE_TABLE_BLOCKS == 32 && DATA_INITIAL_BLOCK == 34
    ensures BITMAP_INITIAL_BLOCK == 1 && BITMAP_BLOCKS == 1 && SLASH == 47
  {
  }

  type Block = b: seq<byte> | |b| == 4096 witness seq(4096, _ => 0)

  // ---------------------------------------------------------------- inode

  /** t_node. The name keeps its whole 71-byte buffer; the two dates are opaque stored words. */
  datatype Node = Node(state: byte, name: seq<byte>, parent: nat, size: nat,
                       ctime: nat, mtime: nat, ptrs: seq<u32>)

  /** Every field fits the C type that stores it. */
  predicate Fits(x: Node)
  {
    && |x.name| == 71
    && x.parent < 0x1_0000_0000
    && x.size < 0x1_0000_0000
    && x.ctime < 0x1_0000_0000_0000_0000
    && x.mtime < 0x1_0000_0000_0000_0000
    && |x.ptrs| == 1000
  }

  function EncPtrs(ps: seq<u32>): (s: seq<byte>)
    ensures |s| == 4 * |ps|
  {
    if ps == [] then [] else Le(ps[0], 4) + EncPtrs(ps[1..])
  }

  lemma {:induction false} EncPtrsAt(ps: seq<u32>, i: nat)
    requires i < |ps|
    ensures EncPtrs(ps)[4 * i..4 * i + 4] == Le(ps[i], 4)
  {
    var first, rest := Le(ps[0], 4), EncPtrs(ps[1..]);
    var s := EncPtrs(ps);
    assert s == first + rest;
    hide Le, EncPtrs;
    if i == 0 {
      assert s[0..4] == first;
    } else {
      EncPtrsAt(ps[1..], i - 1);
      SliceAfter(first, rest, 4 * (i - 1), 4 * (i - 1) + 4);
    }
  }

  lemma SliceAfter(a: seq<byte>, b: seq<byte>, lo: nat, hi: nat)
    requires lo <= hi <= |b|
    ensures (a + b)[|a| + lo..|a| + hi] == b[lo..hi]
  {
  }

  /** An array of bytes is the encoding of the words read from it. */
  lemma {:induction false} EncPtrsOf(s: seq<byte>, ps: seq<u32>)
    requires |s| == 4 * |ps|
    requires forall i | 0 <= i < |ps| :: ps[i] == U32At(s, 4 * i)
    ensures EncPtrs(ps) == s
  {
    if ps == [] {
      assert s == [];
    } else {
      var t := s[4..];
      forall i | 0 <= i < |ps[1..]|
        ensures ps[1..][i] == U32At(t, 4 * i)
      {
        assert ps[1..][i] == ps[i + 1] == U32At(s, 4 * (i + 1));
        assert t[4 * i..4 * i + 4] == s[4 * (i + 1)..4 * (i + 1) + 4];
      }
      EncPtrsOf(t, ps[1..]);
      LeValue(s[0..4]);
      assert s == s[0..4] + t;
    }
  }

  /** Where each field lies: seven fields of 1, 71, 4, 4, 8, 8 and 4000 bytes, end to end. */
  lemma FieldOffsets(a: seq<byte>, b: seq<byte>, c: seq<byte>, d: seq<byte>, e: seq<byte>, f: seq<byte>, g: seq<byte>)
    requires |a| == 1 && |b| == 71 && |c| == 4 && |d| == 4 && |e| == 8 && |f| == 8 && |g| == 4000
    ensures var s := a + b + c + d + e + f + g;
            |s| == 4096 && s[0] == a[0] && s[1..72] == b && s[72..76] == c && s[76..80] == d
            && s[80..88] == e && s[88..96] == f && s[96..] == g
  {
    assert (a + b)[1..72] == b;
    assert (a + b + c)[72..76] == c;
    assert (a + b + c + d)[76..80] == d;
    assert (a + b + c + d + e)[80..88] == e;
    assert (a + b + c + d + e + f)[88..96] == f;
  }

  function NodeToBlock(x: Node): Block
    requires Fits(x)
  {
    [x.state] + x.name + Le(x.parent, 4) + Le(x.size, 4) + Le(x.ctime, 8) + Le(x.mtime, 8) + EncPtrs(x.ptrs)
  }

  /** Where each field lies in its block. */
  lemma NodeBytes(x: Node, i: nat)
    requires Fits(x) && i < 1000
    ensures var b := NodeToBlock(x);
            && b[0] == x.state && b[1..72] == x.name && b[72..76] == Le(x.parent, 4) && b[76..80] == Le(x.size, 4)
            && b[80..88] == Le(x.ctime, 8) && b[88..96] == Le(x.mtime, 8)
            && b[96 + 4 * i..100 + 4 * i] == Le(x.ptrs[i], 4)
  {
    FieldOffsets([x.state], x.name, Le(x.parent, 4), Le(x.size, 4), Le(x.ctime, 8), Le(x.mtime, 8), EncPtrs(x.ptrs));
    EncPtrsAt(x.ptrs, i);
    hide Le, EncPtrs;
    var b := NodeToBlock(x);
    assert b[96..][4 * i..4 * i + 4] == b[96 + 4 * i..100 + 4 * i];
  }

  function DecPtrs(b: Block): (ps: seq<u32>)
    ensures |ps| == 1000
  {
    seq(1000, i requires 0 <= i < 1000 => U32At(b, 96 + 4 * i))
  }

  lemma PtrsRoundTrip(b: Block, ps: seq<u32>)
    requires |ps| == 1000 && b[96..] == EncPtrs(ps)
    ensures DecPtrs(b) == ps
  {
    WordBounds();
    hide Le, Value, EncPtrs;
    forall i | 0 <= i < 1000
      ensures U32At(b, 96 + 4 * i) == ps[i]
    {
      EncPtrsAt(ps, i);
      assert b[96 + 4 * i..96 + 4 * i + 4] == b[96..][4 * i..4 * i + 4];
      ValueLe(ps[i], 4);
    }
  }

  function BlockToNode(b: Block): (x: Node)
    ensures Fits(x)
  {
    Node(b[0], b[1..72], U32At(b, 72), U32At(b, 76), U64At(b, 80), U64At(b, 88),
         DecPtrs(b))
  }

  /** An inode written to a block and read back is the same in every field. */
  lemma {:induction false} NodeRoundTrip(x: Node)
    requires Fits(x)
    ensures BlockToNode(NodeToBlock(x)) == x
  {
    var b := NodeToBlock(x);
    FieldOffsets([x.state], x.name, Le(x.parent, 4), Le(x.size, 4), Le(x.ctime, 8), Le(x.mtime, 8), EncPtrs(x.ptrs));
    PtrsRoundTrip(b, x.ptrs);
    WordBounds();
    ValueLe(x.parent, 4);
    ValueLe(x.size, 4);
    ValueLe(x.ctime, 8);
    ValueLe(x.mtime, 8);
    hide Le, Value, EncPtrs, DecPtrs;
  }

  lemma PiecesMakeWhole(s: seq<byte>, b: Block)
    requires |s| == 4096 && s[0] == b[0] && s[1..72] == b[1..72] && s[72..76] == b[72..76] && s[76..80] == b[76..80]
    requires s[80..88] == b[80..88] && s[88..96] == b[88..96] && s[96..] == b[96..]
    ensures s == b
  {
    forall i | 0 <= i < 4096
      ensures s[i] == b[i]
    {
      if 1 <= i < 72 { assert s[i] == s[1..72][i - 1]; }
      else if 72 <= i < 76 { assert s[i] == s[72..76][i - 72]; }
      else if 76 <= i < 80 { assert s[i] == s[76..80][i - 76]; }
      else if 80 <= i < 88 { assert s[i] == s[80..88][i - 80]; }
      else if 88 <= i < 96 { assert s[i] == s[88..96][i - 88]; }
      else if 96 <= i { assert s[i] == s[96..][i - 96]; }
    }
  }

  /** The fields cover all 4096 bytes: writing back the inode just read changes nothing. */
  lemma {:induction false} BlockRoundTrip(b: Block)
    ensures NodeToBlock(BlockToNode(b)) == b
  {
    var x := BlockToNode(b);
    hide Le, Value, EncPtrs;
    assert x.ptrs == DecPtrs(b);
    LeValue(b[72..76]);
    LeValue(b[76..80]);
    LeValue(b[80..88]);
    LeValue(b[88..96]);
    forall i | 0 <= i < 1000
      ensures x.ptrs[i] == U32At(b[96..], 4 * i)
    {
      assert b[96..][4 * i..4 * i + 4] == b[96 + 4 * i..96 + 4 * i + 4];
    }
    EncPtrsOf(b[96..], x.ptrs);
    var s := [b[0]] + b[1..72] + b[72..76] + b[76..80] + b[80..88] + b[88..96] + b[96..];
    FieldOffsets([b[0]], b[1..72], b[72..76], b[76..80], b[80..88], b[88..96], b[96..]);
    assert s == b by { PiecesMakeWhole(s, b); }
  }

  /** memcpy at the cursor: what is written so far grows by exactly the data. */
  method CopyField(b: Block, pos: nat, data: seq<byte>) returns (r: Block, next: nat)
    requires pos + |data| <= 4096
    ensures next == pos + |data|
    ensures r[..next] == b[..pos] + data
    ensures r[next..] == b[next..]
    ensures forall i | next <= i < 4096 :: r[i] == b[i]
  {
    r := Splice(b, pos, data);
    next := pos + |data|;
  }

  /** node_to_block: a cursor advances over the block as each field is copied. */
  method PackNode(x: Node, oldBlock: Block) returns (b: Block)
    requires Fits(x)
    ensures b == NodeToBlock(x)
  {
    hide Le, EncPtrs;
    var pos := 0;
    b, pos := CopyField(oldBlock, pos, [x.state]);
    b, pos := CopyField(b, pos, x.name);
    b, pos := CopyField(b, pos, Le(x.parent, 4));
    b, pos := CopyField(b, pos, Le(x.size, 4));
    b, pos := CopyField(b, pos, Le(x.ctime, 8));
    b, pos := CopyField(b, pos, Le(x.mtime, 8));
    b, pos := CopyField(b, pos, EncPtrs(x.ptrs));
    assert b == b[..pos];
  }

  /** create_node's strcpy of a name into the 71-byte buffer; the rest of the buffer is zero. */
  function NameBuffer(name: seq<byte>): (r: seq<byte>)
    requires |name| <= 70
    ensures |r| == 71
  {
    name + [0] + seq(70 - |name|, _ => 0)
  }

  /** A NUL-free name of at most 70 bytes is what reading the inode back yields. */
  lemma NodeNameRoundTrip(x: Node, name: seq<byte>)
    requires Fits(x) && |name| <= 70 && 0 !in name && x.name == NameBuffer(name)
    ensures CStr(BlockToNode(NodeToBlock(x)).name) == name
  {
    NodeRoundTrip(x);
    CStrOf(name, seq(70 - |name|, _ => 0));
  }

  // ---------------------------------------------------------------- header

  datatype Header = Header(identifier: seq<byte>, version: u32, bitmapInitialBlock: u32, bitmapSize: u32)

  /** header_to_block writes 15 bytes and leaves the rest of the block as it was. Reading it back gives the
      header but for the upper bits of its version, so the header itself exactly when there are none. */
  method PackHeader(h: Header, oldBlock: Block) returns (b: Block)
    requires |h.identifier| == 3
    ensures UnpackHeader(b) == h.(version := h.version % 256)
    ensures UnpackHeader(b) == h <==> h.version < 256
    ensures b[..15] == h.identifier + Le(h.version, 4) + Le(h.bitmapInitialBlock, 4) + Le(h.bitmapSize, 4)
    ensures b[15..] == oldBlock[15..]
  {
    hide Le, Value, UnpackHeader;
    var pos := 0;
    b, pos := CopyField(oldBlock, pos, h.identifier);
    b, pos := CopyField(b, pos, Le(h.version, 4));
    b, pos := CopyField(b, pos, Le(h.bitmapInitialBlock, 4));
    b, pos := CopyField(b, pos, Le(h.bitmapSize, 4));
    HeaderRoundTrip(h, b);
  }

  /** The header read from a block that starts with its four fields. */
  lemma HeaderRoundTrip(h: Header, b: Block)
    requires |h.identifier| == 3
    requires b[..15] == h.identifier + Le(h.version, 4) + Le(h.bitmapInitialBlock, 4) + Le(h.bitmapSize, 4)
    ensures UnpackHeader(b) == h.(version := h.version % 256)
  {
    hide Le, Value;
    var s := b[..15];
    assert b[..3] == s[..3] == h.identifier;
    assert b[3..7] == s[3..7] == Le(h.version, 4);
    assert b[7..11] == s[7..11] == Le(h.bitmapInitialBlock, 4);
    assert b[11..15] == s[11..15] == Le(h.bitmapSize, 4);
    WordBounds();
    ValueLe(h.version, 4);
    ValueLe(h.bitmapInitialBlock, 4);
    ValueLe(h.bitmapSize, 4);
  }

  /** block_to_header: the version passes through an 8-bit parameter of create_header. */
  function UnpackHeader(b: Block): Header
  {
    Header(b[..3], U32At(b, 3) % 256, U32At(b, 7), U32At(b, 11))
  }

  // ---------------------------------------------------------------- directory entry

  type Name = seq<byte>

  datatype Entry = Entry(name: Name, id: nat)

  const SLASH: byte := 47

  /** A path component that an entry can hold: 1 to 70 bytes, no NUL and no slash. */
  predicate ValidName(name: Name)
  {
    1 <= |name| <= 70 && 0 !in name && SLASH !in name
  }

  /** The k-th entry of a data block: four bytes of inode number, then a C string. */
  function EntryIn(b: Block, k: nat): Entry
    requires k < 32
  {
    Entry(CStr(b[128 * k + 4..128 * k + 128]), U32At(b, 128 * k))
  }

  /** add_directory_entry's two copies: the number, then the 124-byte name buffer, whose bytes after
      the NUL are whatever was on the stack. */
  function PutEntry(b: Block, k: nat, e: Entry, junk: seq<byte>): Block
    requires k < 32 && e.id < 0x1_0000_0000 && |e.name| + |junk| == 123
  {
    Splice(Splice(b, 128 * k, Le(e.id, 4)), 128 * k + 4, e.name + [0] + junk)
  }

  /** The bytes of a stored entry: 128 for each, the number in the first four, and the name ended by a NUL. */
  lemma EntryBytes(b: Block, k: nat, e: Entry, junk: seq<byte>)
    requires k < 32 && e.id < 0x1_0000_0000 && |e.name| + |junk| == 123
    ensures var r, at := PutEntry(b, k, e, junk), 128 * k;
            && r[at..at + 4] == Le(e.id, 4) && r[at + 4..at + 4 + |e.name|] == e.name && r[at + 4 + |e.name|] == 0
            && r[..at] == b[..at] && r[at + 128..] == b[at + 128..]
  {
    hide Le;
  }

  /** The entry is read back, and the other entries of the block are as they were. */
  lemma PutEntryRoundTrip(b: Block, k: nat, e: Entry, junk: seq<byte>, j: nat)
    requires k < 32 && j < 32 && e.id < 0x1_0000_0000 && |e.name| + |junk| == 123 && 0 !in e.name
    ensures EntryIn(PutEntry(b, k, e, junk), j) == if j == k then e else EntryIn(b, j)
  {
    var r := PutEntry(b, k, e, junk);
    if j == k {
      assert r[128 * k + 4..128 * k + 128] == e.name + [0] + junk;
      CStrOf(e.name, junk);
      assert r[128 * k..128 * k + 4] == Le(e.id, 4);
      WordBounds();
      ValueLe(e.id, 4);
    } else {
      assert r[128 * j + 4..128 * j + 128] == b[128 * j + 4..128 * j + 128];
      assert r[128 * j..128 * j + 4] == b[128 * j..128 * j + 4];
    }
  }

  /** delete_directory_entry's in-place left shift: the tail after entry k moves down over it. */
  function DropEntry(b: Block, k: nat): Block
    requires k < 32
  {
    Splice(b, 128 * k, b[128 * k + 128..])
  }

  lemma DropEntryAt(b: Block, k: nat, j: nat)
    requires k < 32 && j < 31
    ensures EntryIn(DropEntry(b, k), j) == EntryIn(b, if j < k then j else j + 1)
  {
    var r := DropEntry(b, k);
    var i := if j < k then j else j + 1;
    assert r[128 * j + 4..128 * j + 128] == b[128 * i + 4..128 * i + 128];
    assert r[128 * j..128 * j + 4] == b[128 * i..128 * i + 4];
  }

  // ---------------------------------------------------------------- pointer block

  /** The j-th slot of a pointer block. */
  function Slot(b: Block, j: nat): u32
    requires j < 1024
  {
    U32At(b, 4 * j)
  }

  function PutSlot(b: Block, j: nat, x: u32): Block
    requires j < 1024
  {
    Splice(b, 4 * j, Le(x, 4))
  }

  /** The bytes of a slot. */
  lemma SlotBytes(b: Block, j: nat, x: u32)
    requires j < 1024
    ensures var b0: int, b1: int, b2: int, b3: int := b[4 * j], b[4 * j + 1], b[4 * j + 2], b[4 * j + 3];
            Slot(b, j) == b0 + 0x100 * b1 + 0x1_0000 * b2 + 0x100_0000 * b3
    ensures PutSlot(b, j, x)[4 * j..4 * j + 4] == Le(x, 4)
    ensures PutSlot(b, j, x)[..4 * j] == b[..4 * j] && PutSlot(b, j, x)[4 * j + 4..] == b[4 * j + 4..]
  {
    WordRead(b, 4 * j);
    hide Le, Value;
  }

  lemma SlotOfPut(b: Block, j: nat, x: u32, k: nat)
    requires j < 1024 && k < 1024
    ensures Slot(PutSlot(b, j, x), k) == if k == j then x else Slot(b, k)
  {
    U32Splice(b, 4 * j, x, 4 * k);
  }
}
