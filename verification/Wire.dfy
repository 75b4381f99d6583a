/** serialization.c: the requests a client sends. Each serializer fills a freshly allocated buffer by copies
    at computed offsets; deserialization recovers every argument. */
module Wire {
  import opened Bytes
  import opened Graph

  const IDENTIFIER_OPEN := 1
  const IDENTIFIER_CLOSE := 2
  const IDENTIFIER_WRITE := 3
  const IDENTIFIER_READ := 4
  const IDENTIFIER_REMOVE := 5
  const IDENTIFIER_MKDIR := 6
  const IDENTIFIER_RMDIR := 7
  const IDENTIFIER_STAT := 8
  const IDENTIFIER_READDIR := 9
  const IDENTIFIER_RENAME := 10
  const IDENTIFIER_TRUNCATE := 11

  /** t_package, whose size is the length of its data. */
  datatype Package = Package(id: nat, data: seq<byte>)

  datatype Request =
    | Open(path: seq<byte>, mode: int)
    | Close(fd: nat)
    | Write(fd: nat, buffer: seq<byte>, offset: nat)
    | Read(fd: nat, count: nat, offset: nat)
    | Remove(path: seq<byte>)
    | Mkdir(path: seq<byte>, mode: int)
    | Rmdir(path: seq<byte>)
    | Stat(path: seq<byte>)
    | Readdir(path: seq<byte>)
    | Rename(path: seq<byte>, to: seq<byte>)
    | Truncate(path: seq<byte>, size: int)

  // ---------------------------------------------------------------- ranges

  /** A C string whose serialized size fits in 16 bits. */
  predicate StringFits(s: seq<byte>)
  {
    0 !in s && |s| + 3 < 0x1_0000
  }

  predicate Fits16(x: int)
  {
    -0x8000 <= x < 0x8000
  }

  predicate Fits32(x: int)
  {
    -0x8000_0000 <= x < 0x8000_0000
  }

  /** Every argument fits the type that carries it. */
  predicate InRange(q: Request)
  {
    match q
    case Open(path, mode) => StringFits(path) && Fits16(mode)
    case Close(fd) => fd < 0x1_0000
    case Write(fd, buffer, offset) => fd < 0x1_0000 && |buffer| < 0x1_0000_0000 && offset < 0x1_0000_0000
    case Read(fd, count, offset) => fd < 0x1_0000 && count < 0x1_0000_0000 && offset < 0x1_0000_0000
    case Remove(path) => StringFits(path)
    case Mkdir(path, mode) => StringFits(path) && Fits16(mode)
    case Rmdir(path) => StringFits(path)
    case Stat(path) => StringFits(path)
    case Readdir(path) => StringFits(path)
    case Rename(path, to) => StringFits(path) && StringFits(to)
    case Truncate(path, size) => StringFits(path) && Fits32(size)
  }

  // ---------------------------------------------------------------- the formats

  /** A signed number in n bytes, in two's complement. */
  function Signed(x: int, n: nat): (s: seq<byte>)
    ensures |s| == n
  {
    Le(x % Pow256(n), n)
  }

  function ReadSigned(s: seq<byte>): int
  {
    var x := Value(s);
    if 2 * x < Pow256(|s|) then x else x - Pow256(|s|)
  }

  lemma SignedRoundTrip(x: int, n: nat)
    requires n > 0 && 0 <= 2 * x + Pow256(n) < 2 * Pow256(n)
    ensures ReadSigned(Signed(x, n)) == x
  {
    hide Le, Value, Pow256;
    var m := Pow256(n);
    ModIs(x, m);
    ValueLe(x % m, n);
  }

  lemma ModIs(x: int, m: int)
    requires 0 < m && 0 <= 2 * x + m < 2 * m
    ensures x % m == if x < 0 then x + m else x
  {
    if x < 0 {
      ModOfNegative(x, m);
    } else {
      ModOfSmall(x, m);
    }
  }

  lemma ModOfSmall(x: int, m: int)
    requires 0 <= x < m
    ensures x % m == x
  {
  }

  lemma ModOfNegative(x: int, m: int)
    requires 0 < m && -m < x < 0
    ensures x % m == x + m
  {
    var q, r := x / m, x % m;
    assert (q + 1) * m == q * m + m;
  }

  /** _serialize_string: the length with the NUL, then the string with the NUL. */
  function StringBytes(s: seq<byte>): (r: seq<byte>)
    ensures |r| == |s| + 3
  {
    Le(|s| + 1, 2) + s + [0]
  }

  function Encode(q: Request): Package
  {
    match q
    case Open(path, mode) => Package(IDENTIFIER_OPEN, StringBytes(path) + Signed(mode, 2))
    case Close(fd) => Package(IDENTIFIER_CLOSE, Le(fd, 2))
    case Write(fd, buffer, offset) => Package(IDENTIFIER_WRITE, Le(fd, 2) + Le(|buffer|, 4) + buffer + Le(offset, 4))
    case Read(fd, count, offset) => Package(IDENTIFIER_READ, Le(fd, 2) + Le(count, 4) + Le(offset, 4))
    case Remove(path) => Package(IDENTIFIER_REMOVE, StringBytes(path))
    case Mkdir(path, mode) => Package(IDENTIFIER_MKDIR, StringBytes(path) + Signed(mode, 2))
    case Rmdir(path) => Package(IDENTIFIER_RMDIR, StringBytes(path))
    case Stat(path) => Package(IDENTIFIER_STAT, StringBytes(path))
    case Readdir(path) => Package(IDENTIFIER_READDIR, StringBytes(path))
    case Rename(path, to) => Package(IDENTIFIER_RENAME, StringBytes(path) + StringBytes(to))
    case Truncate(path, size) => Package(IDENTIFIER_TRUNCATE, StringBytes(path) + Signed(size, 4))
  }

  /** The packages, byte by byte: the identifiers are 1 to 11; a string is preceded by its length with the NUL, in
      two bytes; a descriptor and a mode take two bytes, every other number four; and negative ones are in two's
      complement. */
  lemma RequestBytes(q: Request)
    ensures Encode(q) ==
            match q
            case Open(path, mode) => Package(1, Le(|path| + 1, 2) + path + [0] + Le(mode % 0x1_0000, 2))
            case Close(fd) => Package(2, Le(fd, 2))
            case Write(fd, buffer, offset) => Package(3, Le(fd, 2) + Le(|buffer|, 4) + buffer + Le(offset, 4))
            case Read(fd, count, offset) => Package(4, Le(fd, 2) + Le(count, 4) + Le(offset, 4))
            case Remove(path) => Package(5, Le(|path| + 1, 2) + path + [0])
            case Mkdir(path, mode) => Package(6, Le(|path| + 1, 2) + path + [0] + Le(mode % 0x1_0000, 2))
            case Rmdir(path) => Package(7, Le(|path| + 1, 2) + path + [0])
            case Stat(path) => Package(8, Le(|path| + 1, 2) + path + [0])
            case Readdir(path) => Package(9, Le(|path| + 1, 2) + path + [0])
            case Rename(path, to) =>
              Package(10, Le(|path| + 1, 2) + path + [0] + (Le(|to| + 1, 2) + to + [0]))
            case Truncate(path, size) =>
              Package(11, Le(|path| + 1, 2) + path + [0] + Le(size % 0x1_0000_0000, 4))
    ensures q.Close? ==> |Encode(q).data| == 2
  {
    WordBounds();
    hide Le, Pow256;
  }

  /** The requests that come through: strings without a NUL of at most 65532 bytes, descriptors and modes of 16
      bits, and other numbers of 32 bits. */
  lemma InRangeIs(q: Request)
    ensures InRange(q) <==>
            match q
            case Open(path, mode) => 0 !in path && |path| <= 65532 && -32768 <= mode <= 32767
            case Close(fd) => fd <= 65535
            case Write(fd, buffer, offset) => fd <= 65535 && |buffer| < 0x1_0000_0000 && offset < 0x1_0000_0000
            case Read(fd, count, offset) => fd <= 65535 && count < 0x1_0000_0000 && offset < 0x1_0000_0000
            case Mkdir(path, mode) => 0 !in path && |path| <= 65532 && -32768 <= mode <= 32767
            case Rename(path, to) => 0 !in path && |path| <= 65532 && 0 !in to && |to| <= 65532
            case Truncate(path, size) => 0 !in path && |path| <= 65532 && -2147483648 <= size <= 2147483647
            case Remove(path) => 0 !in path && |path| <= 65532
            case Rmdir(path) => 0 !in path && |path| <= 65532
            case Stat(path) => 0 !in path && |path| <= 65532
            case Readdir(path) => 0 !in path && |path| <= 65532
  {
  }

  // ---------------------------------------------------------------- deserialization

  /** The bytes of a fixed-size argument; nothing where the source would read past the package. */
  function Arg(data: seq<byte>, at: nat, size: nat): (r: Option<seq<byte>>)
    ensures r.Some? ==> |r.value| == size
  {
    if at + size <= |data| then Some(data[at..at + size]) else None
  }

  /** A string argument: as many bytes as its length says, with the NUL among them. */
  function StringArg(data: seq<byte>, at: nat): Option<seq<byte>>
  {
    var length := Arg(data, at, 2);
    if length.Some? then Arg(data, at + 2, Value(length.value)) else None
  }

  /** deserialize_open and deserialize_mkdir: a path and a mode. */
  function DecodePathMode(data: seq<byte>, size: nat): Option<(seq<byte>, int)>
  {
    var path := StringArg(data, 0);
    var mode := if path.Some? then Arg(data, 2 + |path.value|, size) else None;
    if mode.Some? then Some((CStr(path.value), ReadSigned(mode.value))) else None
  }

  function DecodeWrite(data: seq<byte>): Option<Request>
  {
    var fd, count := Arg(data, 0, 2), Arg(data, 2, 4);
    if fd.None? || count.None? then None
    else
      var buffer := Arg(data, 6, Value(count.value));
      var offset := Arg(data, 6 + Value(count.value), 4);
      if buffer.None? || offset.None? then None
      else Some(Write(Value(fd.value), buffer.value, Value(offset.value)))
  }

  function DecodeRead(data: seq<byte>): Option<Request>
  {
    var fd, count, offset := Arg(data, 0, 2), Arg(data, 2, 4), Arg(data, 6, 4);
    if fd.Some? && count.Some? && offset.Some? then Some(Read(Value(fd.value), Value(count.value), Value(offset.value)))
    else None
  }

  function DecodeRename(data: seq<byte>): Option<Request>
  {
    var path := StringArg(data, 0);
    var to := if path.Some? then StringArg(data, 2 + |path.value|) else None;
    if to.Some? then Some(Rename(CStr(path.value), CStr(to.value))) else None
  }

  /** deserialize. A stat carries a path only: the mode that deserialize_open also copies lies past its
      package and is not used. */
  function Decode(p: Package): Option<Request>
  {
    if p.id == IDENTIFIER_OPEN || p.id == IDENTIFIER_MKDIR then
      var r := DecodePathMode(p.data, 2);
      if r.None? then None
      else Some(if p.id == IDENTIFIER_OPEN then Open(r.value.0, r.value.1) else Mkdir(r.value.0, r.value.1))
    else if p.id == IDENTIFIER_TRUNCATE then
      var r := DecodePathMode(p.data, 4);
      if r.None? then None else Some(Truncate(r.value.0, r.value.1))
    else if p.id == IDENTIFIER_CLOSE then Some(Close(Value(p.data)))
    else if p.id == IDENTIFIER_WRITE then DecodeWrite(p.data)
    else if p.id == IDENTIFIER_READ then DecodeRead(p.data)
    else if p.id == IDENTIFIER_RENAME then DecodeRename(p.data)
    else if p.id in {IDENTIFIER_REMOVE, IDENTIFIER_RMDIR, IDENTIFIER_STAT, IDENTIFIER_READDIR} then
      var path := StringArg(p.data, 0);
      if path.None? then None
      else if p.id == IDENTIFIER_REMOVE then Some(Remove(CStr(path.value)))
      else if p.id == IDENTIFIER_RMDIR then Some(Rmdir(CStr(path.value)))
      else if p.id == IDENTIFIER_STAT then Some(Stat(CStr(path.value)))
      else Some(Readdir(CStr(path.value)))
    else None
  }

  // ---------------------------------------------------------------- round trips

  lemma ArgAt(a: seq<byte>, s: seq<byte>, b: seq<byte>)
    ensures Arg(a + s + b, |a|, |s|) == Some(s)
  {
    assert (a + s + b)[|a|..|a| + |s|] == s;
  }

  lemma WordArg(a: seq<byte>, x: nat, n: nat, b: seq<byte>)
    requires x < Pow256(n)
    ensures Arg(a + Le(x, n) + b, |a|, n) == Some(Le(x, n)) && Value(Le(x, n)) == x
  {
    ArgAt(a, Le(x, n), b);
    ValueLe(x, n);
  }

  /** A serialized string, wherever it is in the package, is read back. */
  lemma StringArgAt(a: seq<byte>, s: seq<byte>, b: seq<byte>)
    requires StringFits(s)
    ensures StringArg(a + StringBytes(s) + b, |a|) == Some(s + [0]) && CStr(s + [0]) == s
  {
    WordBounds();
    var data := a + StringBytes(s) + b;
    assert data == a + Le(|s| + 1, 2) + (s + [0] + b);
    WordArg(a, |s| + 1, 2, s + [0] + b);
    assert data == (a + Le(|s| + 1, 2)) + (s + [0]) + b;
    ArgAt(a + Le(|s| + 1, 2), s + [0], b);
    CStrOf(s, []);
    assert s + [0] + [] == s + [0];
  }

  lemma PathModeAt(path: seq<byte>, x: int, n: nat)
    requires StringFits(path) && n > 0 && 0 <= 2 * x + Pow256(n) < 2 * Pow256(n)
    ensures DecodePathMode(StringBytes(path) + Signed(x, n), n) == Some((path, x))
  {
    hide Signed, StringBytes, StringArg, Arg, ReadSigned, CStr, Pow256;
    var data := StringBytes(path) + Signed(x, n);
    StringArgAt([], path, Signed(x, n));
    assert [] + StringBytes(path) + Signed(x, n) == data;
    ArgAt(StringBytes(path), Signed(x, n), []);
    assert data + [] == data;
    SignedRoundTrip(x, n);
  }

  lemma WriteAt(fd: nat, buffer: seq<byte>, offset: nat)
    requires fd < 0x1_0000 && |buffer| < 0x1_0000_0000 && offset < 0x1_0000_0000
    ensures DecodeWrite(Le(fd, 2) + Le(|buffer|, 4) + buffer + Le(offset, 4)) == Some(Write(fd, buffer, offset))
  {
    WordBounds();
    hide Le, Value, Arg, Pow256;
    var f, c, o := Le(fd, 2), Le(|buffer|, 4), Le(offset, 4);
    var data := f + c + buffer + o;
    WordArg([], fd, 2, c + buffer + o);
    assert [] + f + (c + buffer + o) == data;
    WordArg(f, |buffer|, 4, buffer + o);
    assert f + c + (buffer + o) == data;
    ArgAt(f + c, buffer, o);
    WordArg(f + c + buffer, offset, 4, []);
    assert data + [] == data;
  }

  lemma ReadAt(fd: nat, count: nat, offset: nat)
    requires fd < 0x1_0000 && count < 0x1_0000_0000 && offset < 0x1_0000_0000
    ensures DecodeRead(Le(fd, 2) + Le(count, 4) + Le(offset, 4)) == Some(Read(fd, count, offset))
  {
    WordBounds();
    hide Le, Value, Arg, Pow256;
    var f, c, o := Le(fd, 2), Le(count, 4), Le(offset, 4);
    var data := f + c + o;
    WordArg([], fd, 2, c + o);
    assert [] + f + (c + o) == data;
    WordArg(f, count, 4, o);
    WordArg(f + c, offset, 4, []);
    assert data + [] == data;
  }

  lemma RenameAt(path: seq<byte>, to: seq<byte>)
    requires StringFits(path) && StringFits(to)
    ensures DecodeRename(StringBytes(path) + StringBytes(to)) == Some(Rename(path, to))
  {
    hide StringBytes, StringArg, CStr;
    var data := StringBytes(path) + StringBytes(to);
    StringArgAt([], path, StringBytes(to));
    assert [] + StringBytes(path) + StringBytes(to) == data;
    StringArgAt(StringBytes(path), to, []);
    assert data + [] == data;
  }

  lemma PathAt(path: seq<byte>)
    requires StringFits(path)
    ensures StringArg(StringBytes(path), 0) == Some(path + [0]) && CStr(path + [0]) == path
  {
    StringArgAt([], path, []);
    assert [] + StringBytes(path) + [] == StringBytes(path);
  }

  /** The server recovers every argument the client packed. */
  lemma RequestRoundTrip(q: Request)
    requires InRange(q)
    ensures Decode(Encode(q)) == Some(q)
  {
    WordBounds();
    hide Signed, StringBytes, StringArg, DecodePathMode, DecodeWrite, DecodeRead, DecodeRename, Le, Value, CStr, Pow256;
    match q {
      case Open(path, mode) => PathModeAt(path, mode, 2);
      case Mkdir(path, mode) => PathModeAt(path, mode, 2);
      case Truncate(path, size) => PathModeAt(path, size, 4);
      case Close(fd) => ValueLe(fd, 2);
      case Write(fd, buffer, offset) => WriteAt(fd, buffer, offset);
      case Read(fd, count, offset) => ReadAt(fd, count, offset);
      case Rename(path, to) => RenameAt(path, to);
      case Remove(path) => PathAt(path);
      case Rmdir(path) => PathAt(path);
      case Stat(path) => PathAt(path);
      case Readdir(path) => PathAt(path);
    }
  }

  // ---------------------------------------------------------------- the serializers

  /** memcpy into an allocated buffer. */
  method Memcpy(a: array<byte>, at: nat, data: seq<byte>)
    requires at + |data| <= a.Length
    modifies a
    ensures a[..] == old(a[..at]) + data + old(a[at + |data|..])
  {
    forall i | 0 <= i < |data| {
      a[at + i] := data[i];
    }
  }

  /** _serialize_string, at a place in a buffer. */
  method SerializeString(a: array<byte>, at: nat, s: seq<byte>)
    requires at + |s| + 3 <= a.Length && |s| + 1 < 0x1_0000
    modifies a
    ensures a[..] == old(a[..at]) + StringBytes(s) + old(a[at + |s| + 3..])
  {
    hide Le;
    var length := |s| + 1;
    Memcpy(a, at, Le(length, 2));
    Memcpy(a, at + 2, s + [0]);
  }

  /** _serialize_path: remove, rmdir, stat and readdir. */
  method SerializePath(id: nat, path: seq<byte>) returns (p: Package)
    requires StringFits(path)
    ensures p == Package(id, StringBytes(path))
  {
    hide StringBytes;
    var a := new byte[|path| + 3];
    SerializeString(a, 0, path);
    assert a[..] == StringBytes(path);
    p := Package(id, a[..]);
  }

  /** serialize_open and serialize_mkdir, and serialize_truncate: a path and a signed word after it. */
  method SerializePathAnd(id: nat, path: seq<byte>, x: int, n: nat) returns (p: Package)
    requires StringFits(path)
    ensures p == Package(id, StringBytes(path) + Signed(x, n))
  {
    hide StringBytes, Signed;
    var a := new byte[|path| + 3 + n];
    SerializeString(a, 0, path);
    Memcpy(a, |path| + 3, Signed(x, n));
    assert a[..] == StringBytes(path) + Signed(x, n);
    p := Package(id, a[..]);
  }

  method SerializeClose(fd: nat) returns (p: Package)
    ensures p == Encode(Close(fd))
  {
    hide Le;
    var a := new byte[2];
    Memcpy(a, 0, Le(fd, 2));
    assert a[..] == Le(fd, 2);
    p := Package(IDENTIFIER_CLOSE, a[..]);
  }

  method SerializeWrite(fd: nat, buffer: seq<byte>, offset: nat) returns (p: Package)
    ensures p == Encode(Write(fd, buffer, offset))
  {
    hide Le;
    var count := |buffer|;
    var a := new byte[2 + 4 + count + 4];
    Memcpy(a, 0, Le(fd, 2));
    Memcpy(a, 2, Le(count, 4));
    assert a[..6] == Le(fd, 2) + Le(count, 4);
    Memcpy(a, 2 + 4, buffer);
    assert a[..6 + count] == Le(fd, 2) + Le(count, 4) + buffer;
    Memcpy(a, 2 + 4 + count, Le(offset, 4));
    assert a[..] == Le(fd, 2) + Le(count, 4) + buffer + Le(offset, 4);
    p := Package(IDENTIFIER_WRITE, a[..]);
  }

  method SerializeRead(fd: nat, count: nat, offset: nat) returns (p: Package)
    ensures p == Encode(Read(fd, count, offset))
  {
    hide Le;
    var a := new byte[2 + 4 + 4];
    Memcpy(a, 0, Le(fd, 2));
    Memcpy(a, 2, Le(count, 4));
    Memcpy(a, 2 + 4, Le(offset, 4));
    assert a[..] == Le(fd, 2) + Le(count, 4) + Le(offset, 4);
    p := Package(IDENTIFIER_READ, a[..]);
  }

  method SerializeRename(path: seq<byte>, to: seq<byte>) returns (p: Package)
    requires StringFits(path) && StringFits(to)
    ensures p == Encode(Rename(path, to))
  {
    hide StringBytes;
    var a := new byte[|path| + 3 + |to| + 3];
    SerializeString(a, 0, path);
    SerializeString(a, |path| + 3, to);
    assert a[..] == StringBytes(path) + StringBytes(to);
    p := Package(IDENTIFIER_RENAME, a[..]);
  }

  /** Any request, packed by its serializer, is what deserialization gives back. */
  method Serialize(q: Request) returns (p: Package)
    requires InRange(q)
    ensures p == Encode(q) && Decode(p) == Some(q)
  {
    RequestRoundTrip(q);
    hide StringBytes, Signed, Le, Decode;
    match q {
      case Open(path, mode) => p := SerializePathAnd(IDENTIFIER_OPEN, path, mode, 2);
      case Mkdir(path, mode) => p := SerializePathAnd(IDENTIFIER_MKDIR, path, mode, 2);
      case Truncate(path, size) => p := SerializePathAnd(IDENTIFIER_TRUNCATE, path, size, 4);
      case Close(fd) => p := SerializeClose(fd);
      case Write(fd, buffer, offset) => p := SerializeWrite(fd, buffer, offset);
      case Read(fd, count, offset) => p := SerializeRead(fd, count, offset);
      case Rename(path, to) => p := SerializeRename(path, to);
      case Remove(path) => p := SerializePath(IDENTIFIER_REMOVE, path);
      case Rmdir(path) => p := SerializePath(IDENTIFIER_RMDIR, path);
      case Stat(path) => p := SerializePath(IDENTIFIER_STAT, path);
      case Readdir(path) => p := SerializePath(IDENTIFIER_READDIR, path);
    }
  }
}
