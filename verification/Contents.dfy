/** File contents as values: overwriting with growth, and the arithmetic of what a write and a truncate
    do to the blocks of a file. */
module Contents {
  import opened Bytes
  import opened Volume

  function Max(a: nat, b: nat): nat
  {
    if a > b then a else b
  }

  function Min(a: nat, b: nat): nat
  {
    if a > b then b else a
  }

  function Zeros(n: nat): (s: seq<byte>)
    ensures |s| == n
  {
    seq(n, _ => 0)
  }

  /** The file after data is written at an offset: bytes past the end up to the offset become zero, and
      bytes past the data stay. */
  function Overwritten(s: seq<byte>, at: nat, data: seq<byte>): (r: seq<byte>)
    ensures |r| == Max(|s|, at + |data|)
  {
    var base := if at <= |s| then s else s + Zeros(at - |s|);
    base[..at] + data + if at + |data| <= |s| then s[at + |data|..] else []
  }

  /** What a read returns: the bytes of [at, at+count) that exist. */
  function Slice(s: seq<byte>, at: nat, count: nat): seq<byte>
  {
    if at >= |s| then [] else s[at..Min(at + count, |s|)]
  }

  /** Byte by byte: what was before the offset stays, a gap is zero, then come the data, and what was past them
      stays. */
  lemma OverwrittenBytes(s: seq<byte>, at: nat, data: seq<byte>)
    ensures var r := Overwritten(s, at, data);
            && |r| == (if at + |data| > |s| then at + |data| else |s|)
            && (forall i | 0 <= i < |r| ::
                  r[i] == if at <= i < at + |data| then data[i - at] else if i < |s| then s[i] else 0)
  {
  }

  /** A read ends where the file ends, and holds the file's bytes. */
  lemma SliceBytes(s: seq<byte>, at: nat, count: nat)
    ensures var r := Slice(s, at, count);
            && |r| == (if at >= |s| then 0 else if count <= |s| - at then count else |s| - at)
            && (forall i | 0 <= i < |r| :: r[i] == s[at + i])
  {
  }

  /** Reading what was just written gives it back. */
  lemma ReadAfterWrite(s: seq<byte>, at: nat, data: seq<byte>)
    ensures Slice(Overwritten(s, at, data), at, |data|) == data
  {
    var r := Overwritten(s, at, data);
    var base := if at <= |s| then s else s + Zeros(at - |s|);
    assert |base[..at]| == at;
    if data != [] {
      assert r[at..at + |data|] == data;
    } else {
      assert Slice(r, at, 0) == [];
    }
  }

  /** Two consecutive reads are one larger read. */
  lemma ReadsConcatenate(s: seq<byte>, at: nat, m: nat, n: nat)
    ensures Slice(s, at, m) + Slice(s, at + m, n) == Slice(s, at, m + n)
  {
    if at < |s| && at + m < |s| {
      assert s[at..at + m] + s[at + m..Min(at + m + n, |s|)] == s[at..Min(at + m + n, |s|)];
    }
  }

  /** Two consecutive writes are one larger write. */
  lemma WritesConcatenate(s: seq<byte>, at: nat, a: seq<byte>, b: seq<byte>)
    requires at <= |s|
    ensures Overwritten(Overwritten(s, at, a), at + |a|, b) == Overwritten(s, at, a + b)
  {
    var r, l := Overwritten(Overwritten(s, at, a), at + |a|, b), Overwritten(s, at, a + b);
    assert |r| == |l|;
    forall i | 0 <= i < |r|
      ensures r[i] == l[i]
    {
      if i < at {
      } else if i < at + |a| {
      } else if i < at + |a| + |b| {
      } else {
      }
    }
  }

  // ---------------------------------------------------------------- blocks of a write

  /** How many blocks before the last one a write from offset up to pos has filled to the end. */
  function Filled(size: nat, offset: nat, pos: nat): nat
    requires offset <= pos
  {
    var upto := Min(pos / 4096, size / 4096);
    if upto > offset / 4096 then upto - offset / 4096 else 0
  }

  /** Filling an earlier block adds a data block the size does not call for; it is used when the last
      block is filled too, and otherwise left over. */
  function Extra(size: nat, offset: nat, pos: nat): nat
    requires offset <= pos
  {
    if Filled(size, offset, pos) > 0 && pos / 4096 <= size / 4096 then 1 else 0
  }

  /** The one case where what is left over includes a pointer block, which stays set in the inode: an
      earlier block is filled, the last is not, and the pointer blocks were exactly full. */
  predicate WriteKeepsShape(size: nat, offset: nat, count: nat)
  {
    !(Extra(size, offset, offset + count) == 1 && (size / 4096 + 1) % 1024 == 0)
  }

  /** A write that starts in the last block, or fills no earlier block, leaves nothing over. */
  lemma TailWriteExact(size: nat, offset: nat, count: nat)
    ensures Filled(size, offset, offset + count) == 0 <==>
            offset / 4096 >= size / 4096 || (offset + count) / 4096 <= offset / 4096
    ensures Filled(size, offset, offset + count) == 0 ==> WriteKeepsShape(size, offset, count)
  {
  }

  /** How many blocks a write from an offset within the file up to pos takes: a data block for every block it
      fills, and the pointer blocks for the data blocks that it does not displace. */
  function LoopNeeds(size: nat, offset: nat, pos: nat): nat
    requires offset <= pos
  {
    var blocks := Max(size, pos) / 4096 + 1 + Extra(size, offset, pos);
    pos / 4096 - offset / 4096 + PtrBlocks(blocks) - PtrBlocks(size / 4096 + 1)
  }

  /** How many blocks a write takes: the first data block and its pointer block if the file has no block, the
      same after a gap that ends a pointer block, and what the bytes themselves need. */
  function WriteNeeds(blocks: bool, size: nat, offset: nat, count: nat): nat
  {
    (if blocks then 0 else 2) + (if size < offset && 4096 <= offset then 2 else 0)
    + LoopNeeds(Max(size, offset), offset, offset + count)
  }

  /** How many blocks a write takes: two for a file without a block, two for a gap past the first block, one for
      every block that is filled, and one for every pointer block, of 1024, that these need. */
  lemma WriteNeedsIs(blocks: bool, size: nat, offset: nat, count: nat)
    ensures WriteNeeds(blocks, size, offset, count) ==
            var end, start := offset + count, if size < offset then offset else size;
            var last := (if start < end then end else start) / 4096 + 1;
            var left := if offset / 4096 < end / 4096 <= start / 4096 then 1 else 0;
            (if blocks then 0 else 2) + (if size < offset && offset >= 4096 then 2 else 0)
            + (end / 4096 - offset / 4096)
            + ((last + left + 1023) / 1024 - (start / 4096 + 1024) / 1024)
  {
  }

  /** A write takes no block exactly if the file has one, the gap is within the first block, and no block is
      filled. */
  lemma WriteNeedsNone(blocks: bool, size: nat, offset: nat, count: nat)
    ensures WriteNeeds(blocks, size, offset, count) == 0 <==>
            blocks && (offset <= size || offset < 4096) && (offset + count) / 4096 == offset / 4096
  {
  }

  /** Overwriting the first block of a file of two blocks and an empty one leaks a block; overwriting the
      first block of a file whose pointer block is exactly full leaves its inode malformed. */
  lemma WriteWitnesses()
    ensures Filled(8192, 0, 4096) == 1 && WriteKeepsShape(8192, 0, 4096)
    ensures !WriteKeepsShape(1023 * 4096, 0, 4096)
  {
  }

  // ---------------------------------------------------------------- truncation

  /** The size after a shrinking truncate to length, as the code computes it. */
  function TruncSize(size: nat, length: nat): nat
  {
    if length >= size then size
    else if length % 4096 == 0 || size - length < 4096 || size / 4096 >= length / 4096 + 2 then length
    else length / 4096 * 4096
  }

  /** Whether it leaves behind the block after the new last one. */
  predicate TruncLeavesBlock(size: nat, length: nat)
  {
    && length < size && length % 4096 != 0
    && (if size - length < 4096 then size / 4096 == length / 4096 + 1 else size / 4096 >= length / 4096 + 2)
  }

  /** And whether that block was alone in its pointer block, which then stays set in the inode. */
  predicate TruncKeepsShape(size: nat, length: nat)
  {
    TruncLeavesBlock(size, length) ==> (length / 4096 + 1) % 1024 != 0
  }

  /** The new size is within a block of the length asked for. It is the length exactly when the length is
      a whole number of blocks, or less than a block is cut, or the last blocks are two or more apart;
      and it is the length with no block left behind exactly when the length is a whole number of blocks
      or lies in the last block. */
  lemma TruncExact(size: nat, length: nat)
    requires length < size
    ensures length < TruncSize(size, length) + 4096 && TruncSize(size, length) <= length
    ensures TruncSize(size, length) == length <==>
            length % 4096 == 0 || size - length < 4096 || size / 4096 >= length / 4096 + 2
    ensures TruncSize(size, length) == length && !TruncLeavesBlock(size, length) <==>
            length % 4096 == 0 || size / 4096 == length / 4096
  {
  }

  /** Shortening 9000 bytes to 4500 keeps 4096; shortening 8193 to 8000 keeps 8000 and leaves a block
      behind; and shortening 4194304 bytes by one leaves behind a block that is alone in its pointer block. */
  lemma TruncWitnesses()
    ensures TruncSize(9000, 4500) == 4096
    ensures TruncSize(8193, 8000) == 8000 && TruncLeavesBlock(8193, 8000) && TruncKeepsShape(8193, 8000)
    ensures !TruncKeepsShape(1024 * 4096, 1024 * 4096 - 1)
  {
  }

  /** Whether the file has a block after a truncate to a length: shortening to nothing keeps one exactly when
      there were bytes past the first block. */
  function TruncBlocks(blocks: bool, size: nat, length: nat): bool
  {
    if length > size then true else ShrinkBlocks(blocks, size, length)
  }

  function ShrinkBlocks(blocks: bool, size: nat, length: nat): bool
  {
    if size <= length then blocks else length > 0 || size >= 4096
  }

  /** What a lengthening truncate appends. */
  function Letters(n: nat): (s: seq<byte>)
    ensures |s| == n
  {
    seq(n, _ => 65)
  }

  /** sac_truncate on contents: a longer length appends 'A' bytes; a shorter one keeps a prefix. */
  function Truncated(s: seq<byte>, length: nat): seq<byte>
  {
    if length > |s| then s + Letters(length - |s|) else s[..TruncSize(|s|, length)]
  }

  /** A longer length keeps the file and appends bytes 65. */
  lemma LengthenedBytes(s: seq<byte>, length: nat)
    requires length >= |s|
    ensures |Truncated(s, length)| == length && Truncated(s, length)[..|s|] == s
    ensures forall i | |s| <= i < length :: Truncated(s, length)[i] == 65
  {
  }

  /** A shorter one keeps the bytes before the new size: the length itself, or, when a block or more is cut and
      the last blocks are neighbours, the start of the block that holds it. */
  lemma ShortenedBytes(s: seq<byte>, length: nat)
    requires length <= |s|
    ensures var r := Truncated(s, length);
            && r <= s
            && |r| == if length % 4096 == 0 || |s| - length < 4096 || |s| / 4096 != length / 4096 + 1 then length
                      else length - length % 4096
  {
  }

  /** The zero fill that truncate documents fails for every longer length. */
  lemma ZeroFillExact(s: seq<byte>, n: nat)
    requires n >= |s|
    ensures Truncated(s, n) == s + Zeros(n - |s|) <==> n == |s|
  {
    if n > |s| {
      assert Truncated(s, n)[|s|] == 65 && (s + Zeros(n - |s|))[|s|] == 0;
    } else {
      assert TruncSize(n, n) == n;
    }
  }
}
