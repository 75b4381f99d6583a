/** The volume as a value: 3000 blocks and one bit for each. An extent lists the blocks of one inode;
    the owner map gives every referenced block its one role; the leaked set holds the used blocks of
    the data region that nothing refers to. */
module Volume {
  import opened Layout

  datatype Vol = Vol(bm: seq<bool>, blk: seq<Block>)

  ghost predicate WfVol(v: Vol)
  {
    |v.bm| == TOTAL_BLOCKS && |v.blk| == TOTAL_BLOCKS
  }

  /** The pointer blocks and the data blocks of an inode, in order. */
  datatype Extent = Extent(ptrs: seq<nat>, data: seq<nat>)

  /** What a data-region block is for: the k-th pointer block or the k-th data block of inode n. */
  datatype Role = PtrRole(n: nat, k: nat) | DataRole(n: nat, k: nat)

  type Table = map<nat, Extent>
  type Owners = map<nat, Role>

  /** How many pointer blocks nb data blocks need. */
  function PtrBlocks(nb: nat): nat
  {
    (nb + 1023) / 1024
  }

  ghost predicate InRegion(b: nat)
  {
    DATA_INITIAL_BLOCK <= b < TOTAL_BLOCKS
  }

  // ---------------------------------------------------------------- no block has two uses

  ghost predicate Holds(own: Owners, b: nat, r: Role)
  {
    b in own && own[b] == r
  }

  ghost predicate RoleMet(t: Table, b: nat, r: Role)
  {
    && r.n in t
    && match r
       case PtrRole(n, k) => k < |t[n].ptrs| && t[n].ptrs[k] == b
       case DataRole(n, k) => k < |t[n].data| && t[n].data[k] == b
  }

  ghost predicate Sized(f: Extent)
  {
    |f.ptrs| == PtrBlocks(|f.data|) <= 1000
  }

  ghost predicate ExtentHeld(f: Extent, n: nat, own: Owners)
  {
    && (forall k | 0 <= k < |f.ptrs| :: Holds(own, f.ptrs[k], PtrRole(n, k)))
    && (forall k | 0 <= k < |f.data| :: Holds(own, f.data[k], DataRole(n, k)))
  }

  ghost predicate OwnerMet(t: Table, own: Owners, lk: set<nat>, b: nat)
    requires b in own
  {
    InRegion(b) && b !in lk && RoleMet(t, b, own[b])
  }

  ghost predicate BitsMatch(bm: seq<bool>, own: Owners, lk: set<nat>)
  {
    && |bm| == TOTAL_BLOCKS
    && (forall b | b in lk :: InRegion(b))
    && (forall b: nat | InRegion(b) :: bm[b] <==> b in own || b in lk)
  }

  /** Every pointer and every data block is a block of its own, in the data region and marked used;
      the used blocks of the region are these and the leaked ones. */
  ghost predicate Sound(bm: seq<bool>, t: Table, own: Owners, lk: set<nat>)
  {
    && (forall n | n in t :: Sized(t[n]) && ExtentHeld(t[n], n, own))
    && (forall b | b in own :: OwnerMet(t, own, lk, b))
    && BitsMatch(bm, own, lk)
  }

  /** A newly reserved block is used and not yet referenced. */
  lemma ReserveSound(bm: seq<bool>, t: Table, own: Owners, lk: set<nat>, b: nat)
    requires Sound(bm, t, own, lk) && InRegion(b) && !bm[b]
    ensures b !in own && b !in lk
    ensures Sound(bm[b := true], t, own, lk + {b})
  {
  }

  lemma FreeSound(bm: seq<bool>, t: Table, own: Owners, lk: set<nat>, b: nat)
    requires Sound(bm, t, own, lk) && b in lk
    ensures InRegion(b) && Sound(bm[b := false], t, own, lk - {b})
  {
  }

  /** Bits of the inode table do not matter here. */
  lemma LowBitSound(bm: seq<bool>, t: Table, own: Owners, lk: set<nat>, b: nat, used: bool)
    requires Sound(bm, t, own, lk) && b < DATA_INITIAL_BLOCK
    ensures Sound(bm[b := used], t, own, lk)
  {
  }

  /** What the new owner map must satisfy when inode n's extent becomes f. */
  ghost predicate Rewires(own: Owners, lk: set<nat>, n: nat, f: Extent, own': Owners, lk': set<nat>)
  {
    && Sized(f) && ExtentHeld(f, n, own')
    && (forall b | b in own && own[b].n != n :: Holds(own', b, own[b]))
    && (forall b | b in own' :: if own'[b].n == n then RoleMet(map[n := f], b, own'[b]) else Holds(own, b, own'[b]))
    && own.Keys + lk == own'.Keys + lk'
    && own'.Keys !! lk'
  }

  lemma RewireSound(bm: seq<bool>, t: Table, own: Owners, lk: set<nat>, n: nat, f: Extent, own': Owners, lk': set<nat>)
    requires Sound(bm, t, own, lk) && Rewires(own, lk, n, f, own', lk')
    ensures Sound(bm, t[n := f], own', lk')
  {
    var t' := t[n := f];
    forall b | b in own.Keys + lk
      ensures InRegion(b)
    {
      assert b in own ==> OwnerMet(t, own, lk, b);
    }
    forall m | m in t'
      ensures Sized(t'[m]) && ExtentHeld(t'[m], m, own')
    {
      if m != n {
        assert ExtentHeld(t[m], m, own);
      }
    }
    forall b | b in own'
      ensures OwnerMet(t', own', lk', b)
    {
      assert b in own'.Keys + lk';
      if own'[b].n != n {
        assert OwnerMet(t, own, lk, b);
      }
    }
    forall b: nat | InRegion(b)
      ensures bm[b] <==> b in own' || b in lk'
    {
      assert b in own.Keys + lk <==> b in own'.Keys + lk';
    }
    forall b | b in lk'
      ensures InRegion(b)
    {
      assert b in own'.Keys + lk';
    }
  }

  /** The blocks of inode n are the ones its extent lists. */
  lemma OwnBlocks(bm: seq<bool>, t: Table, own: Owners, lk: set<nat>, n: nat)
    requires Sound(bm, t, own, lk) && n in t
    ensures Sized(t[n]) && ExtentHeld(t[n], n, own)
    ensures own.Keys !! lk
    ensures OwnRoles(t[n], own, n)
    ensures forall b | b in own && own[b].n == n :: RoleMet(map[n := t[n]], b, own[b])
  {
    forall b | b in own
      ensures b !in lk && (own[b].n == n ==> RoleMet(map[n := t[n]], b, own[b]))
    {
      assert OwnerMet(t, own, lk, b);
    }
  }

  /** A reserved block becomes the next data block of inode n, when its last pointer block has room. */
  lemma AppendSound(bm: seq<bool>, t: Table, own: Owners, lk: set<nat>, n: nat, b: nat)
    requires Sound(bm, t, own, lk) && n in t && b in lk && |t[n].data| % 1024 != 0
    ensures Sound(bm, t[n := t[n].(data := t[n].data + [b])], own[b := DataRole(n, |t[n].data|)], lk - {b})
  {
    OwnBlocks(bm, t, own, lk, n);
    RewireSound(bm, t, own, lk, n, t[n].(data := t[n].data + [b]), own[b := DataRole(n, |t[n].data|)], lk - {b});
  }

  /** The pointer blocks are full: a second reserved block becomes the next pointer block. */
  lemma AppendBothSound(bm: seq<bool>, t: Table, own: Owners, lk: set<nat>, n: nat, p: nat, b: nat)
    requires Sound(bm, t, own, lk) && n in t && b in lk && p in lk && p != b
    requires |t[n].data| % 1024 == 0 && |t[n].ptrs| < 1000
    ensures Sound(bm, t[n := Extent(t[n].ptrs + [p], t[n].data + [b])],
                  own[p := PtrRole(n, |t[n].ptrs|)][b := DataRole(n, |t[n].data|)], lk - {p} - {b})
  {
    hide Sound, ExtentHeld, Rewires;
    OwnBlocks(bm, t, own, lk, n);
    NotOwned(bm, t, own, lk, p);
    NotOwned(bm, t, own, lk, b);
    var f := Extent(t[n].ptrs + [p], t[n].data + [b]);
    BothRewire(t[n], own, lk, n, p, b);
    RewireSound(bm, t, own, lk, n, f, own[p := PtrRole(n, |t[n].ptrs|)][b := DataRole(n, |t[n].data|)], lk - {p} - {b});
  }

  lemma NotOwned(bm: seq<bool>, t: Table, own: Owners, lk: set<nat>, b: nat)
    requires Sound(bm, t, own, lk) && b in lk
    ensures b !in own
  {
    assert b in own ==> OwnerMet(t, own, lk, b);
  }

  /** The blocks an inode's own roles name, with its extent. */
  ghost predicate OwnRoles(f: Extent, own: Owners, n: nat)
  {
    forall b | b in own && own[b].n == n :: RoleMet(map[n := f], b, own[b])
  }

  lemma BothRewire(f: Extent, own: Owners, lk: set<nat>, n: nat, p: nat, b: nat)
    requires Sized(f) && ExtentHeld(f, n, own) && own.Keys !! lk && OwnRoles(f, own, n)
    requires b in lk && p in lk && p != b && p !in own && b !in own && |f.data| % 1024 == 0 && |f.ptrs| < 1000
    ensures var own' := own[p := PtrRole(n, |f.ptrs|)][b := DataRole(n, |f.data|)];
            Rewires(own, lk, n, Extent(f.ptrs + [p], f.data + [b]), own', lk - {p} - {b})
  {
    var g := Extent(f.ptrs + [p], f.data + [b]);
    var own' := own[p := PtrRole(n, |f.ptrs|)][b := DataRole(n, |f.data|)];
    assert ExtentHeld(g, n, own') by {
      forall k | 0 <= k < |g.ptrs|
        ensures Holds(own', g.ptrs[k], PtrRole(n, k))
      {
        assert k < |f.ptrs| ==> Holds(own, f.ptrs[k], PtrRole(n, k));
      }
      forall k | 0 <= k < |g.data|
        ensures Holds(own', g.data[k], DataRole(n, k))
      {
        assert k < |f.data| ==> Holds(own, f.data[k], DataRole(n, k));
      }
    }
    assert own'.Keys == own.Keys + {p, b};
  }

  /** The last data block of inode n is replaced by a reserved one and leaked. */
  lemma ReplaceSound(bm: seq<bool>, t: Table, own: Owners, lk: set<nat>, n: nat, b: nat)
    requires Sound(bm, t, own, lk) && n in t && b in lk && |t[n].data| > 0
    ensures var k := |t[n].data| - 1;
            var was := t[n].data[k];
            Sound(bm, t[n := t[n].(data := t[n].data[k := b])], (own - {was})[b := DataRole(n, k)], lk - {b} + {was})
  {
    hide Sound, ExtentHeld, Rewires;
    var k := |t[n].data| - 1;
    var was := t[n].data[k];
    OwnBlocks(bm, t, own, lk, n);
    NotOwned(bm, t, own, lk, b);
    ReplaceRewires(t[n], own, lk, n, b);
    var t', own' := t[n].(data := t[n].data[k := b]), (own - {was})[b := DataRole(n, k)];
    RewireSound(bm, t, own, lk, n, t', own', lk - {b} + {was});
  }

  lemma ReplaceRewires(f: Extent, own: Owners, lk: set<nat>, n: nat, b: nat)
    requires Sized(f) && ExtentHeld(f, n, own) && own.Keys !! lk && OwnRoles(f, own, n) && |f.data| > 0
    requires b in lk && b !in own
    ensures var k := |f.data| - 1;
            var was := f.data[k];
            Rewires(own, lk, n, f.(data := f.data[k := b]), (own - {was})[b := DataRole(n, k)], lk - {b} + {was})
  {
    var k := |f.data| - 1;
    var was := f.data[k];
    assert Holds(own, was, DataRole(n, k));
    var g := f.(data := f.data[k := b]);
    var own' := (own - {was})[b := DataRole(n, k)];
    forall j | 0 <= j < k
      ensures Holds(own', g.data[j], DataRole(n, j))
    {
      assert Holds(own, g.data[j], DataRole(n, j));
    }
    forall j | 0 <= j < |g.ptrs|
      ensures Holds(own', g.ptrs[j], PtrRole(n, j))
    {
      assert Holds(own, f.ptrs[j], PtrRole(n, j));
    }
    assert own'.Keys + (lk - {b} + {was}) == own.Keys + lk;
  }

  /** An extent without its last data block, and without the pointer block that block was alone in. */
  function Shorter(f: Extent): Extent
    requires |f.data| > 0 && |f.ptrs| == PtrBlocks(|f.data|)
  {
    var k := |f.data| - 1;
    Extent(if k % 1024 == 0 then f.ptrs[..k / 1024] else f.ptrs, f.data[..k])
  }

  /** The blocks this drops. */
  function Dropped(f: Extent): set<nat>
    requires |f.data| > 0 && |f.ptrs| == PtrBlocks(|f.data|)
  {
    var k := |f.data| - 1;
    {f.data[k]} + if k % 1024 == 0 then {f.ptrs[k / 1024]} else {}
  }

  /** Unlinking the last data block leaves the dropped blocks used and unreferenced. */
  lemma UnlinkSound(bm: seq<bool>, t: Table, own: Owners, lk: set<nat>, n: nat)
    requires Sound(bm, t, own, lk) && n in t && |t[n].data| > 0
    ensures |t[n].ptrs| == PtrBlocks(|t[n].data|)
    ensures Sound(bm, t[n := Shorter(t[n])], own - Dropped(t[n]), lk + Dropped(t[n]))
    ensures forall b | b in Dropped(t[n]) :: b in own && own[b].n == n
  {
    hide Sound, ExtentHeld, Rewires, Shorter, Dropped;
    OwnBlocks(bm, t, own, lk, n);
    ShorterRewires(t[n], own, lk, n);
    RewireSound(bm, t, own, lk, n, Shorter(t[n]), own - Dropped(t[n]), lk + Dropped(t[n]));
  }

  lemma ShorterRewires(f: Extent, own: Owners, lk: set<nat>, n: nat)
    requires Sized(f) && ExtentHeld(f, n, own) && own.Keys !! lk && OwnRoles(f, own, n) && |f.data| > 0
    ensures Rewires(own, lk, n, Shorter(f), own - Dropped(f), lk + Dropped(f))
    ensures forall b | b in Dropped(f) :: b in own && own[b].n == n
  {
    var k, gone, g := |f.data| - 1, Dropped(f), Shorter(f);
    assert Holds(own, f.data[k], DataRole(n, k));
    assert Holds(own, f.ptrs[k / 1024], PtrRole(n, k / 1024));
    assert ExtentHeld(g, n, own - gone) by { ShorterHeld(f, own, n); }
    hide ExtentHeld, Shorter, Dropped;
    forall b | b in own - gone && own[b].n == n
      ensures RoleMet(map[n := g], b, own[b])
    {
      ShorterRole(f, own, n, b);
    }
    assert Sized(g) by { ShorterSized(f); }
    assert (own - gone).Keys + (lk + gone) == own.Keys + lk;
  }

  lemma ShorterSized(f: Extent)
    requires Sized(f) && |f.data| > 0
    ensures Sized(Shorter(f))
  {
  }

  lemma ShorterHeld(f: Extent, own: Owners, n: nat)
    requires Sized(f) && ExtentHeld(f, n, own) && |f.data| > 0
    ensures ExtentHeld(Shorter(f), n, own - Dropped(f))
  {
    var k, gone, g := |f.data| - 1, Dropped(f), Shorter(f);
    assert Holds(own, f.data[k], DataRole(n, k));
    assert Holds(own, f.ptrs[k / 1024], PtrRole(n, k / 1024));
    forall j | 0 <= j < |g.data|
      ensures Holds(own - gone, g.data[j], DataRole(n, j))
    {
      assert Holds(own, f.data[j], DataRole(n, j));
    }
    forall j | 0 <= j < |g.ptrs|
      ensures Holds(own - gone, g.ptrs[j], PtrRole(n, j))
    {
      assert Holds(own, f.ptrs[j], PtrRole(n, j));
    }
  }

  lemma ShorterRole(f: Extent, own: Owners, n: nat, b: nat)
    requires Sized(f) && OwnRoles(f, own, n) && |f.data| > 0
    requires b in own - Dropped(f) && own[b].n == n
    ensures RoleMet(map[n := Shorter(f)], b, own[b])
  {
    assert RoleMet(map[n := f], b, own[b]);
  }

  /** All blocks of inode n. */
  function BlocksOf(own: Owners, n: nat): set<nat>
  {
    set b | b in own && own[b].n == n
  }

  /** Forgetting an inode leaves all its blocks used and unreferenced. */
  lemma ForgetSound(bm: seq<bool>, t: Table, own: Owners, lk: set<nat>, n: nat)
    requires Sound(bm, t, own, lk)
    ensures Sound(bm, t - {n}, own - BlocksOf(own, n), lk + BlocksOf(own, n))
  {
    var t', own', lk' := t - {n}, own - BlocksOf(own, n), lk + BlocksOf(own, n);
    forall c | c in own
      ensures InRegion(c) && c !in lk && RoleMet(t, c, own[c])
    {
      assert OwnerMet(t, own, lk, c);
    }
    forall m | m in t'
      ensures Sized(t'[m]) && ExtentHeld(t'[m], m, own')
    {
      assert ExtentHeld(t[m], m, own);
    }
    forall c | c in own'
      ensures OwnerMet(t', own', lk', c)
    {
    }
  }

  /** A new inode with no blocks. */
  lemma EmptySound(bm: seq<bool>, t: Table, own: Owners, lk: set<nat>, n: nat)
    requires Sound(bm, t, own, lk) && n !in t
    ensures Sound(bm, t[n := Extent([], [])], own, lk)
  {
    forall b | b in own
      ensures own[b].n != n && b !in lk
    {
      assert OwnerMet(t, own, lk, b);
    }
    RewireSound(bm, t, own, lk, n, Extent([], []), own, lk);
  }

  // ---------------------------------------------------------------- pigeonhole

  lemma {:induction false} CountBelow(s: set<nat>, lo: nat, hi: nat)
    requires lo <= hi && forall b | b in s :: lo <= b < hi
    ensures |s| <= hi - lo
    decreases hi - lo
  {
    if lo == hi {
      assert s == {};
    } else {
      var s' := s - {hi - 1};
      CountBelow(s', lo, hi - 1);
      assert hi - 1 in s ==> s == s' + {hi - 1};
    }
  }

  /** Distinct items of a sequence. */
  ghost predicate Distinct<T>(s: seq<T>)
  {
    forall i, j | 0 <= i < j < |s| :: s[i] != s[j]
  }

  lemma {:induction false} DistinctCount<T>(s: seq<T>)
    requires Distinct(s)
    ensures |set x | x in s| == |s|
  {
    if s == [] {
      assert (set x | x in s) == {};
    } else {
      DistinctCount(s[1..]);
      var rest := set x | x in s[1..];
      assert (set x | x in s) == {s[0]} + rest;
      assert s[0] !in rest;
    }
  }

  /** Because its blocks are distinct and lie in the data region, an inode has at most 2966 of them:
      sizes fit 32 bits, and the pointer array is never full. */
  lemma SizeBound(bm: seq<bool>, t: Table, own: Owners, lk: set<nat>, n: nat)
    requires Sound(bm, t, own, lk) && n in t
    ensures |t[n].data| + |t[n].ptrs| <= 2966
    ensures |t[n].ptrs| <= 3
  {
    var all := t[n].ptrs + t[n].data;
    forall i, j | 0 <= i < j < |all|
      ensures all[i] != all[j]
    {
      Roles(bm, t, own, lk, n, i);
      Roles(bm, t, own, lk, n, j);
    }
    DistinctCount(all);
    forall b: nat | b in all
      ensures DATA_INITIAL_BLOCK <= b < TOTAL_BLOCKS
    {
      var i :| 0 <= i < |all| && all[i] == b;
      Roles(bm, t, own, lk, n, i);
    }
    CountBelow((set x | x in all), DATA_INITIAL_BLOCK, TOTAL_BLOCKS);
  }

  lemma Roles(bm: seq<bool>, t: Table, own: Owners, lk: set<nat>, n: nat, i: nat)
    requires Sound(bm, t, own, lk) && n in t && i < |t[n].ptrs| + |t[n].data|
    ensures var b := (t[n].ptrs + t[n].data)[i];
            && InRegion(b)
            && Holds(own, b, if i < |t[n].ptrs| then PtrRole(n, i) else DataRole(n, i - |t[n].ptrs|))
  {
    assert ExtentHeld(t[n], n, own);
    if i < |t[n].ptrs| {
      assert Holds(own, t[n].ptrs[i], PtrRole(n, i));
    } else {
      assert Holds(own, t[n].data[i - |t[n].ptrs|], DataRole(n, i - |t[n].ptrs|));
    }
  }
}
