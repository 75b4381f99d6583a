/** The first loop of sac_write, as arithmetic: what filling the gap up to an offset past the end does to
    the size, to the positions that have blocks and to the bytes, and exactly when it is what the write
    that follows needs. */
module GapFilling {
  import opened Volume
  import opened Inodes
  import opened Contents

  /** The size, the offset still to cover, how many pointers are set, the positions that have a block, and
      the bytes made zero. */
  datatype Gap = Gap(size: nat, rest: nat, pointers: nat, slots: set<nat>, zeroed: set<nat>)

  predicate Within(lo: nat, hi: nat, i: nat)
  {
    lo <= i < hi
  }

  function Range(lo: nat, hi: nat): set<nat>
  {
    set i: nat | i < hi && Within(lo, hi, i)
  }

  /** The positions a file of this size has blocks at. */
  function Positions(size: nat): set<nat>
  {
    Range(0, size / 4096 + 1)
  }

  /** One iteration: zeros go into the block of the file's end, up to its end or to the offset if that is in
      the first block, but the block is looked up without its pointer block; then the size grows; and when
      the block is full and something is left, a block is added as add_data_block_to_node does. */
  function FillStep(g: Gap): (r: Gap)
    requires g.size < g.rest
    ensures r.rest < g.rest && r.size > g.size
  {
    var at := g.size % 4096;
    var nulls := Min(g.rest, 4096) - at;
    var from := 4096 * (g.size / 4096 % 1024) + at;
    var size, rest, zeroed := g.size + nulls, g.rest - nulls, g.zeroed + Range(from, from + nulls);
    if at + nulls == 4096 && rest > 0 then
      var k := AddPosition(g.pointers, size);
      Gap(size, rest, if k / 1024 == g.pointers then g.pointers + 1 else g.pointers, g.slots + {k}, zeroed)
    else
      Gap(size, rest, g.pointers, g.slots, zeroed)
  }

  function FillLoop(g: Gap): Gap
    decreases g.rest
  {
    if g.size < g.rest then FillLoop(FillStep(g)) else g
  }

  /** An inode that has exactly the blocks its size calls for. */
  function GapStart(size: nat, offset: nat): Gap
  {
    Gap(size, offset, size / 4096 / 1024 + 1, Positions(size), {})
  }

  /** The file ends at the offset, and has the blocks for it and no other. */
  predicate Extended(g: Gap, offset: nat)
  {
    g.size == offset && g.slots == Positions(offset)
  }

  /** And exactly the bytes of the gap are zero. */
  predicate ReadyAt(g: Gap, size: nat, offset: nat)
  {
    Extended(g, offset) && g.zeroed == Range(size, offset)
  }

  /** The gaps that are filled right: those within the first block, and the one that ends where the first
      pointer block is exactly full. */
  predicate GapFits(size: nat, offset: nat)
  {
    offset <= size || offset < 4096 || (size / 4096 == 1023 && offset == 1024 * 4096)
  }

  /** A position is skipped: its block is missing, the next position has one, and no later addition can
      reach it. */
  ghost predicate Skips(g: Gap, k: nat)
  {
    k !in g.slots && k + 1 in g.slots && 4096 * k <= g.size && k < 1024 * g.pointers
  }

  lemma PositionPast(pointers: nat, size: nat, k: nat)
    requires k < 1024 * pointers && 4096 * k <= size
    ensures AddPosition(pointers, size) > k
  {
  }

  lemma {:induction false} SkipStays(g: Gap, k: nat)
    requires Skips(g, k)
    ensures Skips(FillLoop(g), k)
    decreases g.rest
  {
    if g.size < g.rest {
      PositionPast(g.pointers, FillStep(g).size, k);
      SkipStays(FillStep(g), k);
    }
  }

  lemma SkippingIsNotExtended(g: Gap, k: nat, offset: nat)
    requires Skips(FillLoop(g), k)
    ensures !Extended(FillLoop(g), offset)
  {
    hide FillLoop;
  }

  /** An iteration that fills its block skips a position, unless its pointer block is full too. */
  lemma FullStepSkips(g: Gap)
    requires g.size < g.rest && g.rest > 4096 - g.size % 4096 && g.rest >= 4096
    requires g.slots == Positions(g.size) && g.pointers == g.size / 4096 / 1024 + 1
    requires g.size / 4096 % 1024 != 1023
    ensures Skips(FillStep(g), g.size / 4096 + 1)
  {
    var k := g.size / 4096;
    SkipPosition(k);
    SkipPlaces(g.size);
    hide AddPosition, Positions;
    assert FillStep(g).size == 4096 * (k + 1);
  }

  lemma SkipPosition(k: nat)
    requires k % 1024 != 1023
    ensures AddPosition(k / 1024 + 1, 4096 * (k + 1)) == k + 2
  {
  }

  lemma SkipPlaces(size: nat)
    ensures size / 4096 + 1 !in Positions(size) && size / 4096 + 2 !in Positions(size)
  {
  }

  /** When the pointer block is full the next position gets its block. */
  lemma FullStepGrows(g: Gap)
    requires g.size < g.rest && g.rest > 4096 - g.size % 4096 && g.rest >= 4096
    requires g.slots == Positions(g.size) && g.pointers == g.size / 4096 / 1024 + 1
    requires g.size / 4096 % 1024 == 1023
    ensures var k, h := g.size / 4096, FillStep(g);
            && h.size == 4096 * (k + 1) && h.rest == g.rest - (4096 - g.size % 4096)
            && h.slots == Positions(h.size) && h.pointers == h.size / 4096 / 1024 + 1
            && h.zeroed == g.zeroed + Range(4096 * 1023 + g.size % 4096, 4096 * 1024)
  {
    var k := g.size / 4096;
    assert AddPosition(g.pointers, 4096 * (k + 1)) == k + 1;
  }

  /** The whole loop past the first block: either it stops after a step that filled block and pointer block
      together, or it has skipped a position. */
  lemma GapBeyond(size: nat, offset: nat)
    requires size < offset && offset >= 4096
    ensures var r, k := FillLoop(GapStart(size, offset)), size / 4096;
            if k % 1024 == 1023 && offset == 4096 * (k + 1)
            then Extended(r, offset) && r.zeroed == Range(4096 * 1023 + size % 4096, 4096 * 1024)
            else !Extended(r, offset)
  {
    hide AddPosition, Extended, Skips, Range, FillStep, FillLoop, GapStart, Positions;
    var g, k := GapStart(size, offset), size / 4096;
    FirstStep(size, offset);
    var h := FillStep(g);
    if h.rest == 0 {
      OneBlockGap(size, offset);
    } else if k % 1024 != 1023 {
      FullStepSkips(g);
      SkipStays(h, k + 1);
      SkippingIsNotExtended(h, k + 1, offset);
    } else {
      FullStepGrows(g);
      assert {} + Range(4096 * 1023 + size % 4096, 4096 * 1024) == Range(4096 * 1023 + size % 4096, 4096 * 1024);
      AfterGrowing(h, k, offset);
    }
  }

  lemma FirstStep(size: nat, offset: nat)
    requires size < offset && offset >= 4096
    ensures var g := GapStart(size, offset);
            && g.size == size && g.rest == offset && g.slots == Positions(size) && g.zeroed == {}
            && g.pointers == size / 4096 / 1024 + 1
            && FillStep(g).rest == offset - (4096 - size % 4096) && FillLoop(g) == FillLoop(FillStep(g))
  {
    hide AddPosition, Range, Positions;
  }

  lemma OneBlockGap(size: nat, offset: nat)
    requires size < offset && offset >= 4096 && FillStep(GapStart(size, offset)).rest == 0
    ensures size == 0 && !Extended(FillLoop(GapStart(size, offset)), offset)
  {
    var h := FillStep(GapStart(size, offset));
    hide AddPosition;
    assert h.size == 4096;
    assert Within(0, 2, 1) && 1 in Positions(4096);
    assert !Within(0, 1, 1) && 1 !in h.slots;
  }

  /** What happens after the step that filled block and pointer block together. */
  lemma AfterGrowing(h: Gap, k: nat, offset: nat)
    requires k % 1024 == 1023 && h.size == 4096 * (k + 1) && h.slots == Positions(h.size)
    requires h.pointers == h.size / 4096 / 1024 + 1 && h.rest < offset <= h.rest + 4096
    ensures if h.size < h.rest then !Extended(FillLoop(h), offset)
            else FillLoop(h) == h && (Extended(h, offset) <==> offset == h.size)
    ensures h.size < h.rest ==> offset > h.size
  {
    hide AddPosition, Skips, Positions;
    if h.size < h.rest {
      FullStepSkips(h);
      SkipStays(FillStep(h), k + 2);
      SkippingIsNotExtended(FillStep(h), k + 2, offset);
    }
  }

  lemma GapWithin(size: nat, offset: nat)
    requires size < offset < 4096
    ensures FillLoop(GapStart(size, offset)) == Gap(offset, size, 1, Positions(offset), Range(size, offset))
  {
    assert {} + Range(size, offset) == Range(size, offset);
    assert FillStep(GapStart(size, offset)) == Gap(offset, size, 1, Positions(size), Range(size, offset));
  }

  /** Size and blocks come out right exactly when the offset is in the first block, or is where a pointer
      block is exactly full. */
  lemma GapExtends(size: nat, offset: nat)
    requires size < offset
    ensures Extended(FillLoop(GapStart(size, offset)), offset) <==>
            offset < 4096 || (size / 4096 % 1024 == 1023 && offset == 4096 * (size / 4096 + 1))
  {
    if offset < 4096 {
      GapWithin(size, offset);
    } else {
      GapBeyond(size, offset);
    }
  }

  /** The bytes too come out right exactly when in the second case it is the first pointer block. */
  lemma GapExact(size: nat, offset: nat)
    requires size < offset
    ensures ReadyAt(FillLoop(GapStart(size, offset)), size, offset) <==> GapFits(size, offset)
  {
    if offset < 4096 {
      GapWithin(size, offset);
    } else {
      GapBeyond(size, offset);
      var k := size / 4096;
      if k % 1024 == 1023 && offset == 4096 * (k + 1) {
        if k != 1023 {
          assert Within(4096 * 1023 + size % 4096, 4096 * 1024, 4096 * 1024 - 1);
          assert !Within(size, offset, 4096 * 1024 - 1);
          assert 4096 * 1024 - 1 in Range(4096 * 1023 + size % 4096, 4096 * 1024);
        } else {
          assert size == 4096 * 1023 + size % 4096;
        }
      }
    }
  }

  /** Concrete gaps: one block in an empty file leaves the block for the write missing; up to the end of a
      full first pointer block all is right; up to the end of a full second one the zeros are misplaced. */
  lemma GapWitnesses()
    ensures !Extended(FillLoop(GapStart(0, 4096)), 4096)
    ensures ReadyAt(FillLoop(GapStart(4190308, 4194304)), 4190308, 4194304)
    ensures var r := FillLoop(GapStart(2047 * 4096 + 100, 2048 * 4096));
            Extended(r, 2048 * 4096) && !ReadyAt(r, 2047 * 4096 + 100, 2048 * 4096)
  {
    hide FillLoop, GapStart, Extended, ReadyAt;
    GapExtends(0, 4096);
    GapExact(4190308, 4194304);
    GapExtends(2047 * 4096 + 100, 2048 * 4096);
    GapExact(2047 * 4096 + 100, 2048 * 4096);
  }

  /** An inode's blocks, in the terms of the loop. */
  function GapOf(f: Extent, size: nat, rest: nat, zeroed: set<nat>): Gap
  {
    Gap(size, rest, |f.ptrs|, Range(0, |f.data|), zeroed)
  }
}
