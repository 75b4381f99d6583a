/** What the server sends back for a directory listing and a stat (fs_sac.c), and how the client takes it
    apart (fuse.c). */
module Replies {
  import opened Bytes
  import opened Wire

  // ---------------------------------------------------------------- readdir

  /** The serialized names, end to end. */
  function EncodeNames(names: seq<seq<byte>>): seq<byte>
  {
    if names == [] then [] else EncodeNames(names[..|names| - 1]) + StringBytes(names[|names| - 1])
  }

  ghost predicate NamesFit(names: seq<seq<byte>>)
  {
    forall i | 0 <= i < |names| :: StringFits(names[i])
  }

  /** The listing as bytes: for each name its length with the NUL in two bytes, the name, and the NUL. */
  lemma NamesBytes(names: seq<seq<byte>>, name: seq<byte>)
    ensures EncodeNames([]) == []
    ensures EncodeNames(names + [name]) == EncodeNames(names) + (Le(|name| + 1, 2) + name + [0])
  {
    hide Le;
    assert (names + [name])[..|names|] == names;
  }

  lemma EncodeNamesNext(names: seq<seq<byte>>, i: nat)
    requires i < |names|
    ensures EncodeNames(names[..i + 1]) == EncodeNames(names[..i]) + StringBytes(names[i])
  {
    assert names[..i + 1][..i] == names[..i];
  }

  /** The prefix of the encoding that the first i names take. */
  lemma {:induction false} EncodeNamesPrefix(names: seq<seq<byte>>, i: nat)
    requires i <= |names|
    ensures EncodeNames(names[..i]) <= EncodeNames(names)
    decreases |names| - i
  {
    if i == |names| {
      assert names[..i] == names;
    } else {
      EncodeNamesPrefix(names, i + 1);
      EncodeNamesNext(names, i);
    }
  }

  /** _sac_readdir: for each name the data is copied aside, a larger buffer is allocated, the data is
      copied back and the name serialized after it. */
  method PackNames(names: seq<seq<byte>>) returns (data: array<byte>)
    requires NamesFit(names)
    ensures fresh(data) && data[..] == EncodeNames(names)
  {
    hide StringBytes, EncodeNames;
    data := new byte[0];
    assert EncodeNames(names[..0]) == [] by { EncodeNone(names); }
    for i := 0 to |names|
      invariant fresh(data) && data[..] == EncodeNames(names[..i])
    {
      var name := names[i];
      var prevSize := data.Length;
      var buffer := new byte[prevSize];
      Memcpy(buffer, 0, data[..]);
      data := new byte[prevSize + |name| + 3];
      Memcpy(data, 0, buffer[..]);
      SerializeString(data, prevSize, name);
      EncodeNamesNext(names, i);
      assert data[..] == EncodeNames(names[..i]) + StringBytes(name);
    }
    assert names[..|names|] == names;
  }

  lemma EncodeNone(names: seq<seq<byte>>)
    ensures EncodeNames(names[..0]) == []
  {
  }

  /** Where the i-th name is in the data. */
  lemma NameAt(names: seq<seq<byte>>, i: nat)
    requires NamesFit(names) && i < |names|
    ensures var data, at := EncodeNames(names), |EncodeNames(names[..i])|;
            && at + 2 <= |data|
            && var len := U16At(data, at);
               && len == |names[i]| + 1 && at + 2 + len <= |data|
               && data[at + 2..at + 2 + len] == names[i] + [0]
               && at + 2 + len == |EncodeNames(names[..i + 1])|
  {
    hide EncodeNames, StringBytes, Le, Value, CStr;
    var data, before := EncodeNames(names), EncodeNames(names[..i]);
    EncodeNamesPrefix(names, i + 1);
    EncodeNamesNext(names, i);
    var upto := before + StringBytes(names[i]);
    assert data == upto + data[|upto|..];
    StringArgAt(before, names[i], data[|upto|..]);
  }

  lemma EncodedEnd(names: seq<seq<byte>>, i: nat)
    requires i <= |names|
    ensures |EncodeNames(names[..i])| < |EncodeNames(names)| <==> i < |names|
    ensures |EncodeNames(names[..i])| <= |EncodeNames(names)|
  {
    EncodeNamesPrefix(names, i);
    if i < |names| {
      EncodeNamesPrefix(names, i + 1);
      EncodeNamesNext(names, i);
    } else {
      assert names[..i] == names;
    }
  }

  /** The loop of do_readdir: it recovers exactly the names that were packed, and stops at the end of the
      data. */
  method UnpackNames(data: seq<byte>, ghost names: seq<seq<byte>>) returns (entries: seq<seq<byte>>, size: nat)
    requires NamesFit(names) && data == EncodeNames(names)
    ensures entries == names && size == |data|
  {
    hide EncodeNames;
    entries := [];
    size := 0;
    EncodeNone(names);
    EncodedEnd(names, 0);
    while size < |data|
      invariant |entries| <= |names| && entries == names[..|entries|]
      invariant size == |EncodeNames(names[..|entries|])|
      invariant size < |data| <==> |entries| < |names|
      decreases |names| - |entries|
    {
      ghost var i := |entries|;
      NameAt(names, i);
      var len := U16At(data, size);
      size := size + 2;
      var entry := data[size..size + len];
      CStrOf(names[i], []);
      assert names[i] + [0] + [] == names[i] + [0];
      entries := entries + [CStr(entry)];
      size := size + len;
      EncodedEnd(names, i + 1);
    }
  }

  /** From the server's list to the client's: the same names in the same order. */
  method SendNames(names: seq<seq<byte>>) returns (entries: seq<seq<byte>>)
    requires NamesFit(names)
    ensures entries == names
  {
    hide EncodeNames;
    var data := PackNames(names);
    var size;
    entries, size := UnpackNames(data[..], names);
  }

  // ---------------------------------------------------------------- stat

  /** What sac_stat filled in, as it travels: 24 bytes. */
  datatype StatReply = StatReply(isDir: bool, node: nat, size: nat, mtime: nat, ctime: nat)

  predicate StatFits(s: StatReply)
  {
    && s.node < 0x1_0000 && s.size < 0x1_0000_0000
    && s.mtime < 0x1_0000_0000_0000_0000 && s.ctime < 0x1_0000_0000_0000_0000
  }

  /** __fill_stat_from_buffer. */
  function FillStat(data: seq<byte>): StatReply
    requires |data| == 24
  {
    StatReply(U16At(data, 0) == 2, U16At(data, 2), U32At(data, 4), U64At(data, 8), U64At(data, 16))
  }

  lemma StatLayout(a: seq<byte>, b: seq<byte>, c: seq<byte>, d: seq<byte>, e: seq<byte>)
    requires |a| == 2 && |b| == 2 && |c| == 4 && |d| == 8 && |e| == 8
    ensures var s := a + b + c + d + e;
            |s| == 24 && s[0..2] == a && s[2..4] == b && s[4..8] == c && s[8..16] == d && s[16..24] == e
  {
    var s := a + b + c + d + e;
    assert (a + b + c + d)[8..16] == d;
    assert (a + b + c)[4..8] == c;
  }

  /** _sac_stat: five fields packed without gaps, and the client recovers each. */
  method PackStat(s: StatReply) returns (data: array<byte>)
    requires StatFits(s)
    ensures fresh(data) && data.Length == 24 && FillStat(data[..]) == s
    ensures data[..] ==
            Le(if s.isDir then 2 else 1, 2) + Le(s.node, 2) + Le(s.size, 4) + Le(s.mtime, 8) + Le(s.ctime, 8)
  {
    var kind := if s.isDir then 2 else 1;
    hide Le, Value, FillStat, StatFits;
    data := new byte[2 + 2 + 4 + 8 + 8];
    Memcpy(data, 0, Le(kind, 2));
    Memcpy(data, 2, Le(s.node, 2));
    assert data[..4] == Le(kind, 2) + Le(s.node, 2);
    Memcpy(data, 4, Le(s.size, 4));
    assert data[..8] == Le(kind, 2) + Le(s.node, 2) + Le(s.size, 4);
    Memcpy(data, 8, Le(s.mtime, 8));
    assert data[..16] == Le(kind, 2) + Le(s.node, 2) + Le(s.size, 4) + Le(s.mtime, 8);
    Memcpy(data, 16, Le(s.ctime, 8));
    assert data[..] == Le(kind, 2) + Le(s.node, 2) + Le(s.size, 4) + Le(s.mtime, 8) + Le(s.ctime, 8);
    StatRoundTrip(s, kind);
  }

  lemma StatRoundTrip(s: StatReply, kind: nat)
    requires StatFits(s) && kind == if s.isDir then 2 else 1
    ensures FillStat(Le(kind, 2) + Le(s.node, 2) + Le(s.size, 4) + Le(s.mtime, 8) + Le(s.ctime, 8)) == s
  {
    hide Le, Value;
    StatLayout(Le(kind, 2), Le(s.node, 2), Le(s.size, 4), Le(s.mtime, 8), Le(s.ctime, 8));
    WordBounds();
    ValueLe(kind, 2);
    ValueLe(s.node, 2);
    ValueLe(s.size, 4);
    ValueLe(s.mtime, 8);
    ValueLe(s.ctime, 8);
  }
}
