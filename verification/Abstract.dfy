/** The operations on the abstract file system: what each returns, what it makes of the namespace, and when
    it can fail for want of space. No blocks, no inodes: only paths, directories, byte sequences, and the
    number by which each item is known. */
module Abstract {
  import opened Bytes
  import opened Layout
  import opened Graph
  import opened Paths
  import opened Contents
  import opened GapFilling
  import opened Namespace

  function Parent(p: Path): Path
    requires p != []
  {
    p[..|p| - 1]
  }

  /** The components before the last are directories, as far as they exist. */
  ghost predicate ClearWalk(ns: NS, p: Path)
  {
    forall k: nat | k < |p| && p[..k] in ns :: ns[p[..k]].ADir?
  }

  /** A path an entry can be made for: not the root, with a name that fits. */
  predicate Creatable(path: PathStr)
  {
    IsValidPath(path) ==> |path| > 1 && |Split(path)| > 0 && |Split(path)[|Split(path)| - 1]| <= 70
  }

  // ---------------------------------------------------------------- numbers

  /** Some item has this number. */
  ghost predicate Used(ns: NS, n: nat)
  {
    exists p :: p in ns && ns[p].ino == n
  }

  /** The least number not used, among those of the inode table from the given one on, or the table's size. */
  ghost function FirstFree(ns: NS, from: nat): nat
    requires from <= NODE_TABLE_BLOCKS
    decreases NODE_TABLE_BLOCKS - from
  {
    if from == NODE_TABLE_BLOCKS || !Used(ns, from) then from else FirstFree(ns, from + 1)
  }

  lemma {:induction false} FirstFreeIsFree(ns: NS, from: nat)
    requires from <= NODE_TABLE_BLOCKS
    ensures from <= FirstFree(ns, from) <= NODE_TABLE_BLOCKS
    ensures FirstFree(ns, from) < NODE_TABLE_BLOCKS ==> !Used(ns, FirstFree(ns, from))
    ensures forall n: nat | from <= n < FirstFree(ns, from) :: Used(ns, n)
    decreases NODE_TABLE_BLOCKS - from
  {
    hide Used;
    if from < NODE_TABLE_BLOCKS && Used(ns, from) {
      FirstFreeIsFree(ns, from + 1);
    }
  }

  /** The number the next new item gets. */
  ghost function NewNumber(ns: NS): nat
  {
    FirstFree(ns, 0)
  }

  /** The path of the item with this number. */
  ghost function PathOf(ns: NS, n: nat): (p: Path)
    requires Used(ns, n)
    ensures p in ns && ns[p].ino == n
  {
    var p :| p in ns && ns[p].ino == n;
    p
  }

  // ---------------------------------------------------------------- mkdir and open

  ghost predicate CreateDomain(ns: NS, path: PathStr)
  {
    Creatable(path) && (IsValidPath(path) ==> ClearWalk(ns, Split(path)))
  }

  /** Whether the path can be made into something new. */
  ghost predicate IsNew(ns: NS, path: PathStr)
    requires Creatable(path)
  {
    IsValidPath(path) && Parent(Split(path)) in ns && Split(path) !in ns
  }

  ghost function MkdirCode(ns: NS, path: PathStr): int
    requires Creatable(path)
  {
    if IsNew(ns, path) then 0 else -1
  }

  ghost function MkdirNext(ns: NS, path: PathStr): NS
    requires Creatable(path)
  {
    if IsNew(ns, path) then ns[Split(path) := ADir(NewNumber(ns))] else ns
  }

  /** open makes an empty file where there is nothing, and finds what there is. */
  ghost predicate OpenFails(ns: NS, path: PathStr)
    requires Creatable(path)
  {
    !IsValidPath(path) || Parent(Split(path)) !in ns
  }

  ghost function OpenCode(ns: NS, path: PathStr): int
    requires Creatable(path)
  {
    if OpenFails(ns, path) then -1 else if Split(path) in ns then ns[Split(path)].ino else NewNumber(ns)
  }

  ghost function OpenNext(ns: NS, path: PathStr): NS
    requires Creatable(path)
  {
    if IsNew(ns, path) then ns[Split(path) := AFile(NewNumber(ns), [], false)] else ns
  }

  /** Making something fails only when every number is taken, or when the first entry of an empty directory
      needs blocks and there are none. */
  ghost predicate CreateExits(ns: NS, path: PathStr, full: bool)
    requires Creatable(path)
  {
    IsNew(ns, path) && (NewNumber(ns) == NODE_TABLE_BLOCKS || (full && EmptyDir(ns, Parent(Split(path)))))
  }

  // ---------------------------------------------------------------- remove and rmdir

  ghost predicate PathDomain(ns: NS, path: PathStr)
  {
    IsValidPath(path) ==> ClearWalk(ns, Split(path))
  }

  ghost predicate NamesFile(ns: NS, path: PathStr)
  {
    IsValidPath(path) && Split(path) in ns && ns[Split(path)].AFile?
  }

  ghost predicate NamesDir(ns: NS, path: PathStr)
  {
    IsValidPath(path) && Split(path) in ns && ns[Split(path)].ADir?
  }

  ghost function RemoveCode(ns: NS, path: PathStr): int
  {
    if NamesFile(ns, path) then 0 else -1
  }

  ghost function RemoveNext(ns: NS, path: PathStr): NS
  {
    if NamesFile(ns, path) then Without(ns, Split(path)) else ns
  }

  ghost predicate EmptyDir(ns: NS, p: Path)
  {
    forall name: Name :: p + [name] !in ns
  }

  ghost function RmdirCode(ns: NS, path: PathStr): int
  {
    if !NamesDir(ns, path) then -1 else if EmptyDir(ns, Split(path)) then 0 else -2
  }

  ghost function RmdirNext(ns: NS, path: PathStr): NS
  {
    if NamesDir(ns, path) && EmptyDir(ns, Split(path)) then Without(ns, Split(path)) else ns
  }

  // ---------------------------------------------------------------- rename

  /** Both parents exist. */
  ghost predicate ParentsExist(ns: NS, from: PathStr, to: PathStr)
    requires Creatable(from) && Creatable(to)
  {
    && IsValidPath(from) && IsValidPath(to)
    && Parent(Split(from)) in ns && Parent(Split(to)) in ns
  }

  /** When both parents exist, so does the source; the target is free, or is the source; and the target's
      parent is not the source or below it. */
  ghost predicate RenameDomain(ns: NS, from: PathStr, to: PathStr)
  {
    && Creatable(from) && Creatable(to)
    && (IsValidPath(from) && IsValidPath(to) ==>
          && ClearWalk(ns, Split(from)) && ClearWalk(ns, Split(to))
          && (ParentsExist(ns, from, to) ==>
                && Split(from) in ns
                && (Split(to) !in ns || Split(to) == Split(from))
                && !(Split(from) <= Parent(Split(to)))))
  }

  /** Any two paths whose ways are clear. */
  ghost predicate RenamePaths(ns: NS, from: PathStr, to: PathStr)
  {
    && Creatable(from) && Creatable(to)
    && (IsValidPath(from) && IsValidPath(to) ==>
          ClearWalk(ns, Split(from)) && ClearWalk(ns, Split(to)))
  }

  ghost function RenameCode(ns: NS, from: PathStr, to: PathStr): int
    requires Creatable(from) && Creatable(to)
  {
    if ParentsExist(ns, from, to) then 0 else -1
  }

  ghost function RenameNext(ns: NS, from: PathStr, to: PathStr): NS
    requires Creatable(from) && Creatable(to)
  {
    if ParentsExist(ns, from, to) then Renamed(ns, Split(from), Split(to)) else ns
  }

  /** Nothing else is in the same directory. */
  ghost predicate Alone(ns: NS, p: Path)
  {
    p != [] && forall name: Name | Parent(p) + [name] in ns :: name == p[|p| - 1]
  }

  /** A rename fails only when the new entry is the first in its directory and there are no blocks for it. */
  ghost predicate RenameExits(ns: NS, from: PathStr, to: PathStr, full: bool)
    requires Creatable(from) && Creatable(to)
  {
    && full && ParentsExist(ns, from, to)
    && (EmptyDir(ns, Parent(Split(to))) || (Parent(Split(to)) == Parent(Split(from)) && Alone(ns, Split(from))))
  }

  // ---------------------------------------------------------------- bytes of a file

  /** A write to an open file, at an offset the code handles. */
  ghost predicate WriteAsked(ns: NS, fd: nat, offset: nat)
  {
    Used(ns, fd) && ns[PathOf(ns, fd)].AFile? && GapFits(|ns[PathOf(ns, fd)].data|, offset)
  }

  /** And it keeps the file's inode well formed. */
  ghost predicate WriteDomain(ns: NS, fd: nat, data: seq<byte>, offset: nat)
  {
    WriteAsked(ns, fd, offset) && WriteKeepsShape(|ns[PathOf(ns, fd)].data|, offset, |data|)
  }

  ghost function WriteNext(ns: NS, fd: nat, data: seq<byte>, offset: nat): NS
    requires Used(ns, fd) && ns[PathOf(ns, fd)].AFile?
  {
    var p := PathOf(ns, fd);
    ns[p := AFile(fd, Overwritten(ns[p].data, offset, data), true)]
  }

  /** A write fails exactly when it takes more blocks than are free. */
  ghost predicate WriteExits(ns: NS, fd: nat, data: seq<byte>, offset: nat, room: nat)
    requires Used(ns, fd) && ns[PathOf(ns, fd)].AFile?
  {
    var item := ns[PathOf(ns, fd)];
    room < WriteNeeds(item.blocks, |item.data|, offset, |data|)
  }

  ghost predicate ReadDomain(ns: NS, fd: nat, count: nat, offset: nat)
  {
    Used(ns, fd) && offset < 0x8000_0000 && offset + count < 0x1_0000_0000
  }

  /** What a read returns: the bytes of the range that exist, or an error for a directory and for a file
      without a block. */
  ghost predicate ReadAnswers(item: Item, count: nat, offset: nat, r: int, data: seq<byte>)
  {
    match item
    case ADir(_) => r == -1 && data == []
    case AFile(_, content, blocks) => data == Slice(content, offset, count) && r == if blocks then |data| else -1
  }

  function NotNegative(length: int): nat
  {
    if length < 0 then 0 else length
  }

  ghost predicate TruncAsked(ns: NS, path: PathStr, length: int)
  {
    -0x8000_0000 <= length < 0x8000_0000 && PathDomain(ns, path)
  }

  /** And it keeps the file's inode well formed. */
  ghost predicate TruncDomain(ns: NS, path: PathStr, length: int)
  {
    && TruncAsked(ns, path, length)
    && (NamesFile(ns, path) ==> TruncKeepsShape(|ns[Split(path)].data|, NotNegative(length)))
  }

  ghost function TruncCode(ns: NS, path: PathStr): int
  {
    if NamesFile(ns, path) then 0 else -1
  }

  /** A file's bytes after a truncate. */
  ghost function Cut(ns: NS, p: Path, length: nat): NS
    requires p in ns && ns[p].AFile?
  {
    ns[p := AFile(ns[p].ino, Truncated(ns[p].data, length), TruncBlocks(ns[p].blocks, |ns[p].data|, length))]
  }

  ghost function TruncNext(ns: NS, path: PathStr, length: int): NS
  {
    if NamesFile(ns, path) then Cut(ns, Split(path), NotNegative(length)) else ns
  }

  /** A truncate fails exactly when it lengthens by more blocks than are free. */
  ghost predicate TruncExits(ns: NS, path: PathStr, length: nat, room: nat)
  {
    && NamesFile(ns, path)
    && var item := ns[Split(path)];
       length > |item.data| && room < WriteNeeds(item.blocks, |item.data|, |item.data|, length - |item.data|)
  }
}
