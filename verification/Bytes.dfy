/** Bytes, C strings and little-endian machine words: what memcpy moves in and out of a block on a
    32-bit little-endian host. */
module Bytes {

  type byte = x: int | 0 <= x < 256

  type u32 = x: int | 0 <= x < 0x1_0000_0000

  function Pow256(n: nat): (p: nat)
    ensures p > 0
  {
    if n == 0 then 1 else 256 * Pow256(n - 1)
  }

  lemma WordBounds()
    ensures Pow256(2) == 0x1_0000
    ensures Pow256(4) == 0x1_0000_0000
    ensures Pow256(8) == 0x1_0000_0000_0000_0000
  {
    assert Pow256(1) == 256;
    assert Pow256(2) == 0x1_0000;
    assert Pow256(3) == 0x100_0000;
    assert Pow256(4) == 0x1_0000_0000;
    assert Pow256(5) == 0x100_0000_0000;
    assert Pow256(6) == 0x1_0000_0000_0000;
    assert Pow256(7) == 0x100_0000_0000_0000;
  }

  /** The n low bytes of x, least significant first. */
  function Le(x: nat, n: nat): (s: seq<byte>)
    ensures |s| == n
    decreases n
  {
    if n == 0 then [] else [x % 256] + Le(x / 256, n - 1)
  }

  /** Words of 2, 4 and 8 bytes, byte by byte. */
  lemma WordBytes(x: nat)
    ensures Le(x, 2) == [x % 0x100, x / 0x100 % 0x100]
    ensures Le(x, 4) == [x % 0x100, x / 0x100 % 0x100, x / 0x1_0000 % 0x100, x / 0x100_0000 % 0x100]
    ensures Le(x, 8) == Le(x, 4) + Le(x / 0x1_0000_0000, 4)
  {
    hide Le;
    FourMore(x, 0);
    FourMore(x, 4);
    LeNext(x, 1);
    LeNext(x / 0x100, 0);
    assert Le(x / 0x1_0000_0000, 0) == Le(x / 0x1_0000, 0) == [];
  }

  lemma FourMore(x: nat, n: nat)
    ensures Le(x, n + 4) == [x % 0x100, x / 0x100 % 0x100, x / 0x1_0000 % 0x100, x / 0x100_0000 % 0x100]
                            + Le(x / 0x1_0000_0000, n)
  {
    hide Le;
    LeNext(x, n + 3);
    LeNext(x / 0x100, n + 2);
    LeNext(x / 0x1_0000, n + 1);
    LeNext(x / 0x100_0000, n);
  }

  lemma LeNext(x: nat, n: nat)
    ensures Le(x, n + 1) == [x % 0x100] + Le(x / 0x100, n)
  {
  }

  /** The 32-bit word at a place, from its bytes. */
  lemma WordRead(s: seq<byte>, at: nat)
    requires at + 4 <= |s|
    ensures var b0: int, b1: int, b2: int, b3: int := s[at], s[at + 1], s[at + 2], s[at + 3];
            U32At(s, at) == b0 + 0x100 * b1 + 0x1_0000 * b2 + 0x100_0000 * b3
  {
    var w := s[at..at + 4];
    ValueNext(w);
    ValueNext(w[1..]);
    ValueNext(w[2..]);
    ValueNext(w[3..]);
    assert w[1..][1..] == w[2..] && w[2..][1..] == w[3..] && w[3..][1..] == [];
    assert Value([]) == 0;
    hide Value;
  }

  lemma ValueNext(s: seq<byte>)
    requires s != []
    ensures Value(s) == s[0] as int + 0x100 * Value(s[1..])
  {
  }

  function Value(s: seq<byte>): nat
  {
    if s == [] then 0 else s[0] + 256 * Value(s[1..])
  }

  /** A word that fits in n bytes survives being stored and loaded. */
  lemma {:induction false} ValueLe(x: nat, n: nat)
    requires x < Pow256(n)
    ensures Value(Le(x, n)) == x
    decreases n
  {
    if n > 0 {
      ValueLe(x / 256, n - 1);
      assert Le(x, n)[1..] == Le(x / 256, n - 1);
    }
  }

  /** Loading bytes as a word and storing the word gives the bytes back. */
  lemma {:induction false} LeValue(s: seq<byte>)
    ensures Value(s) < Pow256(|s|)
    ensures Le(Value(s), |s|) == s
  {
    if s != [] {
      LeValue(s[1..]);
      assert Value(s) / 256 == Value(s[1..]);
      assert Value(s) % 256 == s[0];
      assert s == [s[0]] + s[1..];
    }
  }

  /** memcpy of data into s at offset at. */
  function Splice(s: seq<byte>, at: nat, data: seq<byte>): (r: seq<byte>)
    requires at + |data| <= |s|
    ensures |r| == |s|
    ensures forall i | 0 <= i < |s| :: r[i] == if at <= i < at + |data| then data[i - at] else s[i]
  {
    s[..at] + data + s[at + |data|..]
  }

  function U32At(s: seq<byte>, at: nat): u32
    requires at + 4 <= |s|
  {
    LeValue(s[at..at + 4]);
    WordBounds();
    Value(s[at..at + 4])
  }

  function U64At(s: seq<byte>, at: nat): (x: nat)
    requires at + 8 <= |s|
    ensures x < 0x1_0000_0000_0000_0000
  {
    LeValue(s[at..at + 8]);
    WordBounds();
    Value(s[at..at + 8])
  }

  function U16At(s: seq<byte>, at: nat): (x: nat)
    requires at + 2 <= |s|
    ensures x < 0x1_0000
  {
    LeValue(s[at..at + 2]);
    WordBounds();
    Value(s[at..at + 2])
  }

  /** Storing a word changes that word and no other disjoint one. */
  lemma U32Splice(s: seq<byte>, at: nat, x: u32, other: nat)
    requires at + 4 <= |s| && other + 4 <= |s|
    requires other == at || other + 4 <= at || at + 4 <= other
    ensures U32At(Splice(s, at, Le(x, 4)), other) == if other == at then x else U32At(s, other)
  {
    var r := Splice(s, at, Le(x, 4));
    if other == at {
      assert r[at..at + 4] == Le(x, 4);
      WordBounds();
      ValueLe(x, 4);
    } else {
      assert r[other..other + 4] == s[other..other + 4];
    }
  }

  /** The C string stored in s: the bytes before the first NUL. */
  function CStr(s: seq<byte>): (r: seq<byte>)
    ensures 0 !in r && |r| <= |s|
  {
    if s == [] || s[0] == 0 then [] else [s[0]] + CStr(s[1..])
  }

  /** There is a NUL exactly when the string is shorter than its buffer. */
  lemma {:induction false} CStrShort(s: seq<byte>)
    ensures |CStr(s)| < |s| <==> 0 in s
    ensures CStr(s) == s[..|CStr(s)|]
    ensures 0 in s ==> s[|CStr(s)|] == 0
  {
    if s != [] && s[0] != 0 {
      CStrShort(s[1..]);
      assert s == [s[0]] + s[1..];
    }
  }

  lemma {:induction false} CStrOf(name: seq<byte>, junk: seq<byte>)
    requires 0 !in name
    ensures CStr(name + [0] + junk) == name
  {
    var s := name + [0] + junk;
    if name == [] {
      assert s[0] == 0;
    } else {
      assert s[0] == name[0] && s[1..] == name[1..] + [0] + junk;
      CStrOf(name[1..], junk);
    }
  }
}
