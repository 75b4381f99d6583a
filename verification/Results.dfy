/** What the abstract operations answer and make of the namespace, in plain numbers, bytes and paths. */
module Results {
  import opened Bytes
  import opened Layout
  import opened Graph
  import opened Paths
  import opened Contents
  import opened Namespace
  import opened Abstract

  // ---------------------------------------------------------------- what must hold for an operation to be specified

  /** A path on which something can be made: a valid one is not the root and ends in a name of at most 70 bytes,
      and no file is on the way to it. */
  lemma CreateDomainIs(ns: NS, path: PathStr)
    ensures CreateDomain(ns, path) <==>
            (IsValidPath(path) ==>
               && path != [47] && Split(path) != [] && |Split(path)[|Split(path)| - 1]| <= 70
               && forall p: Path | p < Split(path) && p in ns :: ns[p].ADir?)
  {
    hide Split;
    PrefixesAre(ns, Split(path));
  }

  lemma PrefixesAre(ns: NS, p: Path)
    ensures ClearWalk(ns, p) <==> forall q: Path | q < p && q in ns :: ns[q].ADir?
  {
    if ClearWalk(ns, p) {
      forall q: Path | q < p && q in ns
        ensures ns[q].ADir?
      {
        assert q == p[..|q|];
      }
    }
    forall k: nat | k < |p|
      ensures p[..k] < p
    {
    }
  }

  /** A path that is only looked up. */
  lemma PathDomainIs(ns: NS, path: PathStr)
    ensures PathDomain(ns, path) <==>
            (IsValidPath(path) ==> forall p: Path | p < Split(path) && p in ns :: ns[p].ADir?)
  {
    hide Split;
    PrefixesAre(ns, Split(path));
  }

  /** A rename: when both parents exist, so does the source; the target is free, or is the source; and the
      target's parent is not the source or below it. */
  lemma RenameDomainIs(ns: NS, from: PathStr, to: PathStr)
    ensures RenameDomain(ns, from, to) <==>
            && (IsValidPath(from) ==>
                  from != [47] && Split(from) != [] && |Split(from)[|Split(from)| - 1]| <= 70)
            && (IsValidPath(to) ==>
                  to != [47] && Split(to) != [] && |Split(to)[|Split(to)| - 1]| <= 70)
            && (IsValidPath(from) && IsValidPath(to) ==>
                  && (forall p: Path | (p < Split(from) || p < Split(to)) && p in ns :: ns[p].ADir?)
                  && (Parent(Split(from)) in ns && Parent(Split(to)) in ns ==>
                        && Split(from) in ns && (Split(to) !in ns || Split(to) == Split(from))
                        && !(Split(from) <= Parent(Split(to)))))
  {
    hide Split, ClearWalk;
    PrefixesAre(ns, Split(from));
    PrefixesAre(ns, Split(to));
  }

  /** A write: to the number of a file; with no gap past the end, or one within the first block or to the end of
      block 1023; and not one that fills an earlier block, does not fill the last, and finds the pointer blocks
      exactly full. */
  lemma WriteDomainIs(ns: NS, fd: nat, data: seq<byte>, offset: nat)
    ensures WriteDomain(ns, fd, data, offset) <==>
            && Used(ns, fd) && ns[PathOf(ns, fd)].AFile?
            && var size, end := |ns[PathOf(ns, fd)].data|, offset + |data|;
               && (offset <= size || offset < 4096 || (size / 4096 == 1023 && offset == 4194304))
               && !(offset / 4096 < end / 4096 <= size / 4096 && (size / 4096 + 1) % 1024 == 0)
  {
    hide Used;
  }

  /** A read: of any item, below 2^31. */
  lemma ReadDomainIs(ns: NS, fd: nat, count: nat, offset: nat)
    ensures ReadDomain(ns, fd, count, offset) <==>
            Used(ns, fd) && offset < 0x8000_0000 && offset + count < 0x1_0000_0000
  {
  }

  /** A truncate: to any length of 32 bits, but not one that leaves a block behind alone in its pointer block. */
  lemma TruncDomainIs(ns: NS, path: PathStr, length: int)
    ensures TruncDomain(ns, path, length) <==>
            && -0x8000_0000 <= length < 0x8000_0000
            && (IsValidPath(path) ==> forall p: Path | p < Split(path) && p in ns :: ns[p].ADir?)
            && (IsValidPath(path) && Split(path) in ns && ns[Split(path)].AFile? ==>
                  var size := |ns[Split(path)].data|;
                  !(0 < length < size && length % 4096 != 0 && (length / 4096 + 1) % 1024 == 0 &&
                    if size - length < 4096 then size / 4096 == length / 4096 + 1
                    else size / 4096 >= length / 4096 + 2))
  {
    hide Split, IsValidPath, ClearWalk;
    PrefixesAre(ns, Split(path));
  }

  // ---------------------------------------------------------------- when an operation exits for want of space

  /** A new item gets the least of the numbers 0 to 31 that no item has, and 32 stands for none. */
  lemma NewNumberLeast(ns: NS)
    ensures forall n: nat :: Used(ns, n) <==> exists p :: p in ns && ns[p].ino == n
    ensures NewNumber(ns) <= 32
    ensures forall n: nat | n < NewNumber(ns) :: Used(ns, n)
    ensures NewNumber(ns) < 32 ==> forall p | p in ns :: ns[p].ino != NewNumber(ns)
  {
    FirstFreeIsFree(ns, 0);
    hide FirstFree;
  }

  /** mkdir and open exit when something new is to be made, and all 32 numbers are taken or it is the first in
      its directory and there are no two free blocks. */
  lemma CreateExitsWhen(ns: NS, path: PathStr, full: bool)
    requires Creatable(path)
    ensures CreateExits(ns, path, full) <==>
            && IsValidPath(path) && Split(path) != [] && Parent(Split(path)) in ns && Split(path) !in ns
            && ((forall n: nat | n < 32 :: Used(ns, n))
                || (full && forall name: Name :: Parent(Split(path)) + [name] !in ns))
  {
    FirstFreeIsFree(ns, 0);
    hide Split, IsValidPath, FirstFree, Used;
  }

  /** rename exits when the new entry is the first of its directory, or becomes so when the old one goes, and
      there are no two free blocks. */
  lemma RenameExitsWhen(ns: NS, from: PathStr, to: PathStr, full: bool)
    requires Creatable(from) && Creatable(to)
    ensures RenameExits(ns, from, to, full) <==>
            && full && IsValidPath(from) && IsValidPath(to) && Split(from) != [] && Split(to) != []
            && Parent(Split(from)) in ns && Parent(Split(to)) in ns
            && forall name: Name | Parent(Split(to)) + [name] in ns ::
                 Parent(Split(to)) == Parent(Split(from)) && name == Split(from)[|Split(from)| - 1]
  {
    hide Split, IsValidPath;
    if Creatable(from) && IsValidPath(from) {
      assert Split(from) != [];
    }
  }

  /** A truncate exits when it lengthens the file and writing the added bytes at its end does. */
  lemma TruncExitsWhen(ns: NS, path: PathStr, length: nat, room: nat)
    ensures TruncExits(ns, path, length, room) <==>
            && IsValidPath(path) && Split(path) in ns && ns[Split(path)].AFile?
            && var size, blocks := |ns[Split(path)].data|, ns[Split(path)].blocks;
               && length > size
               && room < (if blocks then 0 else 2) + (length / 4096 - size / 4096)
                         + ((length / 4096 + 1024) / 1024 - (size / 4096 + 1024) / 1024)
  {
    hide Split, IsValidPath;
  }

  // ---------------------------------------------------------------- mkdir and open

  /** mkdir: 0 exactly when the path is valid, its parent exists and the name is free; then one new empty
      directory, with the least free number. Otherwise -1, and nothing changes. */
  lemma MkdirAnswer(ns: NS, path: PathStr)
    requires CreateDomain(ns, path)
    ensures MkdirCode(ns, path) == 0 || MkdirCode(ns, path) == -1
    ensures MkdirCode(ns, path) == 0 <==>
            IsValidPath(path) && Split(path) != [] && Parent(Split(path)) in ns && Split(path) !in ns
    ensures var ns' := MkdirNext(ns, path);
            if MkdirCode(ns, path) == 0 then ns' == ns[Split(path) := ADir(NewNumber(ns))] else ns' == ns
  {
  }

  /** A second mkdir of the same path answers -1. */
  lemma MkdirTwice(ns: NS, path: PathStr)
    requires Creatable(path) && IsNew(ns, path)
    ensures MkdirCode(ns, path) == 0 && MkdirCode(MkdirNext(ns, path), path) == -1
  {
  }

  /** open: -1 exactly when the path is not valid or its parent is missing, and then nothing changes; otherwise
      the number of what the path leads to, an empty file without a block being made if there was nothing. */
  lemma OpenAnswer(ns: NS, path: PathStr)
    requires CreateDomain(ns, path)
    ensures IsValidPath(path) ==> Split(path) != []
    ensures OpenCode(ns, path) == -1 <==> !IsValidPath(path) || Parent(Split(path)) !in ns
    ensures var r, ns' := OpenCode(ns, path), OpenNext(ns, path);
            if r == -1 then ns' == ns
            else if Split(path) in ns then ns' == ns && r == ns[Split(path)].ino
            else r == NewNumber(ns) && ns' == ns[Split(path) := AFile(r, [], false)]
  {
  }

  // ---------------------------------------------------------------- remove and rmdir

  /** remove: 0 exactly when the path names a file, which is then gone; otherwise -1, and nothing changes. */
  lemma RemoveAnswer(ns: NS, path: PathStr)
    ensures RemoveCode(ns, path) == 0 || RemoveCode(ns, path) == -1
    ensures RemoveCode(ns, path) == 0 <==> IsValidPath(path) && Split(path) in ns && ns[Split(path)].AFile?
    ensures RemoveNext(ns, path) ==
            if RemoveCode(ns, path) == 0 then imap p | p in ns && p != Split(path) :: ns[p] else ns
  {
    hide Split;
  }

  /** rmdir: -1 when the path names no directory, -2 when some path is one step below it, and otherwise 0, and
      that one path is gone. */
  lemma RmdirAnswer(ns: NS, path: PathStr)
    ensures RmdirCode(ns, path) == 0 || RmdirCode(ns, path) == -1 || RmdirCode(ns, path) == -2
    ensures RmdirCode(ns, path) == -1 <==> !(IsValidPath(path) && Split(path) in ns && ns[Split(path)].ADir?)
    ensures RmdirCode(ns, path) == -2 <==>
            && IsValidPath(path) && Split(path) in ns && ns[Split(path)].ADir?
            && exists name: Name :: Split(path) + [name] in ns
    ensures RmdirNext(ns, path) ==
            if RmdirCode(ns, path) == 0 then imap p | p in ns && p != Split(path) :: ns[p] else ns
  {
    hide Split;
  }

  /** rmdir of the parent after a mkdir in it answers -2. */
  lemma RmdirOfParent(ns: NS, path: PathStr, parent: PathStr)
    requires Creatable(path) && IsNew(ns, path) && IsValidPath(parent) && Split(parent) == Parent(Split(path))
    requires ns[Split(parent)].ADir?
    ensures RmdirCode(MkdirNext(ns, path), parent) == -2
  {
    hide Split, IsValidPath;
    var p := Split(path);
    assert p == Parent(p) + [p[|p| - 1]];
  }

  // ---------------------------------------------------------------- rename

  lemma RenameCodeIs(ns: NS, from: PathStr, to: PathStr)
    requires Creatable(from) && Creatable(to)
    ensures RenameCode(ns, from, to) == 0 || RenameCode(ns, from, to) == -1
    ensures RenameCode(ns, from, to) == 0 <==>
            && IsValidPath(from) && IsValidPath(to) && Split(from) != [] && Split(to) != []
            && Parent(Split(from)) in ns && Parent(Split(to)) in ns
  {
    hide Split, IsValidPath;
  }

  /** rename: 0 exactly when both paths are valid and both parents exist; otherwise -1, and nothing changes. What
      was at or below the old path is then at or below the new one. */
  lemma RenameAnswer(ns: NS, from: PathStr, to: PathStr)
    requires RenameDomain(ns, from, to)
    ensures RenameCode(ns, from, to) == 0 || RenameCode(ns, from, to) == -1
    ensures RenameCode(ns, from, to) == 0 <==>
            && IsValidPath(from) && IsValidPath(to) && Split(from) != [] && Split(to) != []
            && Parent(Split(from)) in ns && Parent(Split(to)) in ns
    ensures RenameCode(ns, from, to) == -1 ==> RenameNext(ns, from, to) == ns
    ensures RenameCode(ns, from, to) == 0 ==>
              var ns', o, n := RenameNext(ns, from, to), Split(from), Split(to);
              && (forall rest: Path :: n + rest in ns' <==> o + rest in ns)
              && (forall rest: Path | o + rest in ns :: ns'[n + rest] == ns[o + rest])
              && (forall p: Path | !(n <= p) :: p in ns' <==> p in ns && !(o <= p))
              && (forall p: Path | !(n <= p) && p in ns && !(o <= p) :: ns'[p] == ns[p])
  {
    hide Split, IsValidPath, ClearWalk;
    if RenameCode(ns, from, to) == 0 {
      MovedPaths(ns, Split(from), Split(to));
    }
  }

  lemma MovedPaths(ns: NS, o: Path, n: Path)
    ensures var ns' := Renamed(ns, o, n);
            && (forall rest: Path :: n + rest in ns' <==> o + rest in ns)
            && (forall rest: Path | o + rest in ns :: ns'[n + rest] == ns[o + rest])
            && (forall p: Path | !(n <= p) :: p in ns' <==> p in ns && !(o <= p))
            && (forall p: Path | !(n <= p) && p in ns && !(o <= p) :: ns'[p] == ns[p])
  {
    var ns' := Renamed(ns, o, n);
    forall rest: Path
      ensures n + rest in ns' <==> o + rest in ns
      ensures o + rest in ns ==> ns'[n + rest] == ns[o + rest]
    {
      assert (n + rest)[|n|..] == rest;
    }
  }

  // ---------------------------------------------------------------- the bytes of a file

  /** write: at the path of the number, the bytes before the offset, zeros for a gap, the buffer, and what was
      past it; nothing else changes. */
  lemma WriteAnswer(ns: NS, fd: nat, buffer: seq<byte>, offset: nat)
    requires Used(ns, fd) && ns[PathOf(ns, fd)].AFile?
    ensures var p, ns' := PathOf(ns, fd), WriteNext(ns, fd, buffer, offset);
            && p in ns' && ns'[p].AFile? && ns' == ns[p := AFile(fd, ns'[p].data, true)]
            && var was, now := ns[p].data, ns'[p].data;
               && |now| == (if offset + |buffer| > |was| then offset + |buffer| else |was|)
               && (forall i | 0 <= i < |now| ::
                     now[i] == if offset <= i < offset + |buffer| then buffer[i - offset]
                               else if i < |was| then was[i] else 0)
  {
    OverwrittenBytes(ns[PathOf(ns, fd)].data, offset, buffer);
    hide Overwritten, Used;
  }

  /** read: -1 for a directory and for a file without a block; otherwise as many bytes as there are from the
      offset on, and no more than asked for, and these bytes. */
  lemma ReadAnswer(item: Item, count: nat, offset: nat, r: int, data: seq<byte>)
    ensures ReadAnswers(item, count, offset, r, data) <==>
            match item
            case ADir(_) => r == -1 && data == []
            case AFile(_, content, blocks) =>
              && |data| == (if offset >= |content| then 0 else if count <= |content| - offset then count
                            else |content| - offset)
              && r == (if blocks then |data| else -1)
              && (forall i | 0 <= i < |data| :: offset + i < |content| && data[i] == content[offset + i])
  {
    if item.AFile? {
      var s := item.data;
      SliceBytes(s, offset, count);
      hide Slice;
      if && |data| == |Slice(s, offset, count)|
         && forall i | 0 <= i < |data| :: offset + i < |s| && data[i] == s[offset + i]
      {
        assert data == Slice(s, offset, count);
      }
    }
  }

  /** truncate: 0 exactly when the path names a file, and otherwise -1, and nothing changes. A longer length keeps
      the file and appends bytes 65; a shorter one keeps a prefix; a negative one counts as 0. */
  lemma TruncAnswer(ns: NS, path: PathStr, length: int)
    ensures TruncCode(ns, path) == 0 || TruncCode(ns, path) == -1
    ensures TruncCode(ns, path) == 0 <==> IsValidPath(path) && Split(path) in ns && ns[Split(path)].AFile?
    ensures TruncCode(ns, path) == -1 ==> TruncNext(ns, path, length) == ns
    ensures TruncCode(ns, path) == 0 ==>
              var p, ns' := Split(path), TruncNext(ns, path, length);
              && p in ns' && ns'[p].AFile? && ns' == ns[p := AFile(ns[p].ino, ns'[p].data, ns'[p].blocks)]
              && var was, now := ns[p].data, ns'[p].data;
                 if length > |was| then
                   && |now| == length && now[..|was|] == was && ns'[p].blocks
                   && (forall i | |was| <= i < length :: now[i] == 65)
                 else if length <= 0 then
                   now == [] && ns'[p].blocks == if was == [] then ns[p].blocks else |was| >= 4096
                 else
                   && now <= was && ns'[p].blocks == (if length == |was| then ns[p].blocks else true)
                   && |now| == if length % 4096 == 0 || |was| - length < 4096 || |was| / 4096 != length / 4096 + 1
                              then length else length - length % 4096
  {
    hide Split, IsValidPath, Truncated;
    if TruncCode(ns, path) == 0 {
      var was, n := ns[Split(path)].data, NotNegative(length);
      if n >= |was| {
        LengthenedBytes(was, n);
      }
      if n <= |was| {
        ShortenedBytes(was, n);
      }
    }
  }
}
