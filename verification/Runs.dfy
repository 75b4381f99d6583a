/** Runs: any sequence of operations on a mounted disk, against the abstract file system. */
module Runs {
  import opened Bytes
  import opened Layout
  import opened Volume
  import opened Graph
  import opened Namespace
  import opened Abstract
  import opened Results
  import opened GapFilling
  import opened Paths
  import opened Contents
  import opened Inodes
  import opened DiskState
  import opened DirStore
  import opened FreeSpace
  import opened Accounting
  import opened SacDirs
  import opened SacRemove
  import opened SacRmdir
  import opened SacRename
  import opened SacFiles
  import opened SacList
  import opened Formatting

  datatype Op =
    | OpMkdir(path: PathStr)
    | OpOpen(path: PathStr)
    | OpWrite(fd: nat, data: seq<byte>, offset: nat)
    | OpRead(fd: nat, count: nat, offset: nat)
    | OpTruncate(path: PathStr, length: int)
    | OpRemove(path: PathStr)
    | OpRmdir(path: PathStr)
    | OpRename(path: PathStr, to: PathStr)
    | OpReaddir(path: PathStr)
    | OpStat(path: PathStr)

  datatype Reply =
    | Code(code: int)
    | Content(count: int, data: seq<byte>)
    | Names(names: Option<seq<Name>>)
    | Status(stat: Option<Stat>)

  /** The domain in which the code is right. */
  ghost predicate Allowed(ns: NS, op: Op)
  {
    match op
    case OpMkdir(path) => CreateDomain(ns, path)
    case OpOpen(path) => CreateDomain(ns, path)
    case OpWrite(fd, data, offset) => WriteDomain(ns, fd, data, offset)
    case OpRead(fd, count, offset) => ReadDomain(ns, fd, count, offset)
    case OpTruncate(path, length) => TruncDomain(ns, path, length)
    case OpRemove(path) => PathDomain(ns, path)
    case OpRmdir(path) => PathDomain(ns, path) && (IsValidPath(path) ==> |path| > 1)
    case OpRename(path, to) => RenameDomain(ns, path, to)
    case OpReaddir(path) => PathDomain(ns, path)
    case OpStat(path) => PathDomain(ns, path)
  }

  ghost function Next(ns: NS, op: Op): NS
    requires Allowed(ns, op)
  {
    match op
    case OpMkdir(path) => MkdirNext(ns, path)
    case OpOpen(path) => OpenNext(ns, path)
    case OpWrite(fd, data, offset) => WriteNext(ns, fd, data, offset)
    case OpTruncate(path, length) => TruncNext(ns, path, length)
    case OpRemove(path) => RemoveNext(ns, path)
    case OpRmdir(path) => RmdirNext(ns, path)
    case OpRename(path, to) => RenameNext(ns, path, to)
    case OpRead(_, _, _) => ns
    case OpReaddir(_) => ns
    case OpStat(_) => ns
  }

  /** The item matches what sac_stat filled in. */
  ghost predicate Matches(ns: NS, p: Path, s: Stat)
  {
    p in ns && match ns[p]
               case ADir(ino) => s.kind == 2 && s.ino == ino && DirSize(ns, p, s.size)
               case AFile(ino, data, _) => s.kind == 1 && s.size == |data| && s.ino == ino
  }

  /** What the client is told. */
  ghost predicate Answers(ns: NS, op: Op, reply: Reply)
    requires Allowed(ns, op)
  {
    match op
    case OpMkdir(path) => reply == Code(MkdirCode(ns, path))
    case OpOpen(path) => reply == Code(OpenCode(ns, path))
    case OpWrite(fd, data, offset) => reply == Code(|data|)
    case OpRead(fd, count, offset) =>
      reply.Content? && ReadAnswers(ns[PathOf(ns, fd)], count, offset, reply.count, reply.data)
    case OpTruncate(path, length) => reply == Code(TruncCode(ns, path))
    case OpRemove(path) => reply == Code(RemoveCode(ns, path))
    case OpRmdir(path) => reply == Code(RmdirCode(ns, path))
    case OpRename(path, to) => reply == Code(RenameCode(ns, path, to))
    case OpReaddir(path) =>
      && reply.Names? && (reply.names.Some? <==> NamesDir(ns, path))
      && (reply.names.Some? ==> Listing(ns, Split(path), reply.names.value))
    case OpStat(path) =>
      && reply.Status? && (reply.stat.Some? <==> IsValidPath(path) && Split(path) in ns)
      && (reply.stat.Some? ==> Matches(ns, Split(path), reply.stat.value))
  }

  /** How many blocks of the data region become used and unreferenced: two whenever a directory loses its
      last entry, one for every block before the last that a write fills, and at most one for a truncate
      that is not to a whole number of blocks. */
  ghost function Leaks(ns: NS, op: Op): nat
    requires Allowed(ns, op)
  {
    match op
    case OpWrite(fd, data, offset) => Filled(|ns[PathOf(ns, fd)].data|, offset, offset + |data|)
    case OpTruncate(path, length) =>
      if NamesFile(ns, path) && TruncLeavesBlock(|ns[Split(path)].data|, NotNegative(length)) then 1 else 0
    case OpRemove(path) => if RemoveCode(ns, path) == 0 && Alone(ns, Split(path)) then 2 else 0
    case OpRmdir(path) => if RmdirCode(ns, path) == 0 && Alone(ns, Split(path)) then 2 else 0
    case OpRename(path, to) => if RenameCode(ns, path, to) == 0 && Alone(ns, Split(path)) then 2 else 0
    case OpMkdir(_) => 0
    case OpOpen(_) => 0
    case OpRead(_, _, _) => 0
    case OpReaddir(_) => 0
    case OpStat(_) => 0
  }

  /** When the program exits in an operation, with that many blocks of the data region free: exactly when what
      the operation must make takes an inode, or more blocks, than there are. */
  ghost predicate Exits(ns: NS, op: Op, room: nat)
    requires Allowed(ns, op)
  {
    match op
    case OpMkdir(path) => CreateExits(ns, path, room < 2)
    case OpOpen(path) => CreateExits(ns, path, room < 2)
    case OpWrite(fd, data, offset) => WriteExits(ns, fd, data, offset, room)
    case OpTruncate(path, length) => TruncExits(ns, path, NotNegative(length), room)
    case OpRename(path, to) => RenameExits(ns, path, to, room < 2)
    case OpRead(_, _, _) => false
    case OpRemove(_) => false
    case OpRmdir(_) => false
    case OpReaddir(_) => false
    case OpStat(_) => false
  }

  // ---------------------------------------------------------------- the operations, in plain terms

  /** What is answered and what becomes of the namespace, for the operations on names. */
  lemma NameOperationIs(ns: NS, op: Op, reply: Reply)
    requires Allowed(ns, op) && Answers(ns, op, reply)
    ensures match op
            case OpMkdir(path) =>
              if IsValidPath(path) && Split(path) != [] && Parent(Split(path)) in ns && Split(path) !in ns
              then reply == Code(0) && Next(ns, op) == ns[Split(path) := ADir(NewNumber(ns))]
              else reply == Code(-1) && Next(ns, op) == ns
            case OpOpen(path) =>
              if !IsValidPath(path) || Split(path) == [] || Parent(Split(path)) !in ns
              then reply == Code(-1) && Next(ns, op) == ns
              else if Split(path) in ns then reply == Code(ns[Split(path)].ino) && Next(ns, op) == ns
              else reply == Code(NewNumber(ns)) && Next(ns, op) == ns[Split(path) := AFile(NewNumber(ns), [], false)]
            case OpRemove(path) =>
              if IsValidPath(path) && Split(path) in ns && ns[Split(path)].AFile?
              then reply == Code(0) && Next(ns, op) == imap p | p in ns && p != Split(path) :: ns[p]
              else reply == Code(-1) && Next(ns, op) == ns
            case OpRmdir(path) =>
              if !(IsValidPath(path) && Split(path) in ns && ns[Split(path)].ADir?)
              then reply == Code(-1) && Next(ns, op) == ns
              else if exists name: Name :: Split(path) + [name] in ns then reply == Code(-2) && Next(ns, op) == ns
              else reply == Code(0) && Next(ns, op) == imap p | p in ns && p != Split(path) :: ns[p]
            case OpRename(path, to) =>
              if && IsValidPath(path) && IsValidPath(to) && Split(path) != [] && Split(to) != []
                 && Parent(Split(path)) in ns && Parent(Split(to)) in ns
              then reply == Code(0) && Next(ns, op) == Renamed(ns, Split(path), Split(to))
              else reply == Code(-1) && Next(ns, op) == ns
            case _ => true
  {
    hide Split, IsValidPath, ClearWalk, Renamed, NewNumber;
    match op {
      case OpMkdir(path) => MkdirAnswer(ns, path);
      case OpOpen(path) => OpenAnswer(ns, path);
      case OpRemove(path) => RemoveAnswer(ns, path);
      case OpRmdir(path) => RmdirAnswer(ns, path);
      case OpRename(path, to) => RenameCodeIs(ns, path, to);
      case _ =>
    }
  }

  /** And for the operations on the bytes of a file. */
  lemma FileOperationIs(ns: NS, op: Op, reply: Reply)
    requires Allowed(ns, op) && Answers(ns, op, reply)
    ensures match op
            case OpWrite(fd, data, offset) =>
              var p := PathOf(ns, fd);
              && reply == Code(|data|)
              && Next(ns, op) == ns[p := AFile(fd, Overwritten(ns[p].data, offset, data), true)]
            case OpRead(fd, count, offset) =>
              && reply.Content? && Next(ns, op) == ns
              && (match ns[PathOf(ns, fd)]
                  case ADir(_) => reply.count == -1 && reply.data == []
                  case AFile(_, content, blocks) =>
                    && |reply.data| == (if offset >= |content| then 0 else if count <= |content| - offset then count
                                        else |content| - offset)
                    && reply.count == (if blocks then |reply.data| else -1)
                    && (forall i | 0 <= i < |reply.data| ::
                          offset + i < |content| && reply.data[i] == content[offset + i]))
            case OpTruncate(path, length) =>
              var p := Split(path);
              if IsValidPath(path) && p in ns && ns[p].AFile? then
                && reply == Code(0)
                && var n := if length < 0 then 0 else length;
                   Next(ns, op) ==
                   ns[p := AFile(ns[p].ino, Truncated(ns[p].data, n), TruncBlocks(ns[p].blocks, |ns[p].data|, n))]
              else
                reply == Code(-1) && Next(ns, op) == ns
            case _ => true
  {
    hide Split, IsValidPath, ClearWalk, Overwritten, Truncated, TruncBlocks, GapFits, WriteKeepsShape, TruncKeepsShape;
    if op.OpRead? {
      ReadAnswer(ns[PathOf(ns, op.fd)], op.count, op.offset, reply.count, reply.data);
    }
  }

  /** And for the two that only look. */
  lemma QueryIs(ns: NS, op: Op, reply: Reply)
    requires Allowed(ns, op) && Answers(ns, op, reply)
    ensures match op
            case OpReaddir(path) =>
              && Next(ns, op) == ns && reply.Names?
              && (reply.names.Some? <==> IsValidPath(path) && Split(path) in ns && ns[Split(path)].ADir?)
              && (reply.names.Some? ==>
                    && (forall name: Name :: name in reply.names.value <==> Split(path) + [name] in ns)
                    && (forall i, j | 0 <= i < j < |reply.names.value| ::
                          reply.names.value[i] != reply.names.value[j]))
            case OpStat(path) =>
              && Next(ns, op) == ns && reply.Status?
              && (reply.stat.Some? <==> IsValidPath(path) && Split(path) in ns)
              && (reply.stat.Some? ==>
                    var s, item := reply.stat.value, ns[Split(path)];
                    && s.ino == item.ino && s.kind == (if item.ADir? then 2 else 1)
                    && (item.AFile? ==> s.size == |item.data|)
                    && (item.ADir? ==> exists names: seq<Name> ::
                       && s.size == 128 * |names|
                       && (forall name: Name :: name in names <==> Split(path) + [name] in ns)
                       && (forall i, j | 0 <= i < j < |names| :: names[i] != names[j])))
            case _ => true
  {
    hide Split, IsValidPath, ClearWalk;
  }

  /** Which predicate of the namespace says that an operation is in its domain. */
  lemma AllowedIs(ns: NS, op: Op)
    ensures Allowed(ns, op) <==>
            match op
            case OpMkdir(path) => CreateDomain(ns, path)
            case OpOpen(path) => CreateDomain(ns, path)
            case OpWrite(fd, data, offset) => WriteDomain(ns, fd, data, offset)
            case OpRead(fd, count, offset) => ReadDomain(ns, fd, count, offset)
            case OpTruncate(path, length) => TruncDomain(ns, path, length)
            case OpRename(path, to) => RenameDomain(ns, path, to)
            case OpRmdir(path) => PathDomain(ns, path) && path != [47]
            case OpRemove(path) => PathDomain(ns, path)
            case OpReaddir(path) => PathDomain(ns, path)
            case OpStat(path) => PathDomain(ns, path)
  {
    hide PathDomain, CreateDomain, WriteDomain, ReadDomain, TruncDomain, RenameDomain;
  }

  /** When the program exits for want of space. */
  lemma ExitsWhen(ns: NS, op: Op, room: nat)
    requires Allowed(ns, op)
    ensures op.OpMkdir? || op.OpOpen? ==> (Exits(ns, op, room) <==> CreateExits(ns, op.path, room < 2))
    ensures op.OpRename? ==> (Exits(ns, op, room) <==> RenameExits(ns, op.path, op.to, room < 2))
    ensures op.OpTruncate? ==>
              (Exits(ns, op, room) <==> TruncExits(ns, op.path, if op.length < 0 then 0 else op.length, room))
    ensures op.OpWrite? ==>
              var item := ns[PathOf(ns, op.fd)];
              (Exits(ns, op, room) <==> room < WriteNeeds(item.blocks, |item.data|, op.offset, |op.data|))
    ensures op.OpRead? || op.OpRemove? || op.OpRmdir? || op.OpReaddir? || op.OpStat? ==> !Exits(ns, op, room)
  {
    hide Split, IsValidPath, ClearWalk, CreateExits, RenameExits, TruncExits, WriteNeeds, GapFits, WriteKeepsShape,
      TruncKeepsShape;
  }

  /** How many blocks leak: the two of a directory that loses its last entry, one for every block before the last
      that a write fills, and at most one for a truncate. */
  lemma LeaksAre(ns: NS, op: Op, reply: Reply)
    requires Allowed(ns, op) && Answers(ns, op, reply)
    ensures op.OpMkdir? || op.OpOpen? || op.OpRead? || op.OpReaddir? || op.OpStat? ==> Leaks(ns, op) == 0
    ensures op.OpRemove? || op.OpRmdir? || op.OpRename? ==>
              Leaks(ns, op) ==
              if reply == Code(0) && Split(op.path) != []
                 && (forall name: Name | Parent(Split(op.path)) + [name] in ns ::
                       name == Split(op.path)[|Split(op.path)| - 1])
              then 2 else 0
    ensures op.OpWrite? ==>
              var size, end := |ns[PathOf(ns, op.fd)].data|, op.offset + |op.data|;
              var upto := if end < size then end / 4096 else size / 4096;
              Leaks(ns, op) == if op.offset / 4096 < upto then upto - op.offset / 4096 else 0
    ensures op.OpTruncate? ==>
              var p := Split(op.path);
              Leaks(ns, op) ==
              if IsValidPath(op.path) && p in ns && ns[p].AFile? && op.length > 0 && op.length % 4096 != 0
                 && op.length < |ns[p].data|
                 && (if |ns[p].data| - op.length < 4096 then |ns[p].data| / 4096 == op.length / 4096 + 1
                     else |ns[p].data| / 4096 >= op.length / 4096 + 2)
              then 1 else 0
  {
    hide Split, IsValidPath, ClearWalk, GapFits, WriteKeepsShape, TruncKeepsShape;
  }

  // ---------------------------------------------------------------- one operation

  /** What one operation promises. */
  ghost predicate Stepped(d: Disk, ns: NS, lk: set<nat>, op: Op, reply: Reply)
    reads d, d.bits, d.blocks
  {
    && Allowed(ns, op) && FsOk(d) && Ns(d) == Next(ns, op) && Answers(ns, op, reply)
    && lk <= d.lk && |d.lk| == |lk| + Leaks(ns, op)
  }

  method StepDirs(d: Disk, op: Op, now: nat) returns (ok: bool, reply: Reply)
    requires FsOk(d) && Allowed(Ns(d), op) && now < 0x1_0000_0000_0000_0000
    requires op.OpMkdir? || op.OpOpen? || op.OpRename?
    modifies d, d.bits, d.blocks
    ensures ok <==> !Exits(old(Ns(d)), op, Room(old(d.Vol()).bm))
    ensures ok ==> Stepped(d, old(Ns(d)), old(d.lk), op, reply)
  {
    hide FsOk, View, GraphOf, Split, CreateDomain, RenameDomain, MkdirNext, OpenNext, RenameNext, MkdirCode,
      RenameCode, OpenCode, Alone, Resolve, CreateExits, RenameExits, RenamePaths, RenameDone, Creatable, Room;
    ghost var ns, lk := Ns(d), d.lk;
    var r;
    match op {
      case OpMkdir(path) =>
        ok, r := Mkdir(d, path, now);
      case OpOpen(path) =>
        ok, r := Open(d, path, now);
      case OpRename(path, to) =>
        DomainPaths(ns, path, to);
        ok, r := Rename(d, path, to);
        if ok {
          RenameDoneHas(d, ns, lk, path, to);
        }
    }
    reply := Code(r);
  }

  method StepFiles(d: Disk, op: Op, now: nat) returns (ok: bool, reply: Reply)
    requires FsOk(d) && Allowed(Ns(d), op) && now < 0x1_0000_0000_0000_0000
    requires op.OpWrite? || op.OpRead? || op.OpTruncate?
    modifies d, d.bits, d.blocks
    ensures ok <==> !Exits(old(Ns(d)), op, Room(old(d.Vol()).bm))
    ensures ok ==> Stepped(d, old(Ns(d)), old(d.lk), op, reply)
  {
    hide FsOk, View, GraphOf, Split, WriteDomain, ReadDomain, TruncDomain, WriteNext, TruncNext, TruncCode,
      NamesFile, Filled, TruncLeavesBlock, ReadAnswers, WriteExits, TruncExits, WriteDone, TruncDone, WriteAsked,
      TruncAsked, Room;
    ghost var ns, lk := Ns(d), d.lk;
    match op {
      case OpWrite(fd, data, offset) =>
        var count;
        WriteIsAsked(ns, fd, data, offset);
        ok, count := WriteNumber(d, fd, data, offset);
        if ok {
          WriteDoneHas(d, ns, lk, fd, data, offset);
        }
        reply := Code(count);
      case OpRead(fd, count, offset) =>
        var r, data := ReadNumber(d, fd, count, offset);
        ok, reply := true, Content(r, data);
      case OpTruncate(path, length) =>
        var r;
        TruncIsAsked(ns, path, length);
        ok, r := Truncate(d, path, length, now);
        if ok {
          TruncDoneHas(d, ns, lk, path, length);
        }
        reply := Code(r);
    }
  }

  method StepRemovals(d: Disk, op: Op) returns (reply: Reply)
    requires FsOk(d) && Allowed(Ns(d), op) && (op.OpRemove? || op.OpRmdir?)
    modifies d, d.bits, d.blocks
    ensures Stepped(d, old(Ns(d)), old(d.lk), op, reply)
  {
    hide FsOk, View, GraphOf, Split, PathDomain, RemoveNext, RmdirNext, RemoveCode, RmdirCode, Alone;
    var r;
    match op {
      case OpRemove(path) =>
        r := Remove(d, path);
      case OpRmdir(path) =>
        r := Rmdir(d, path);
    }
    reply := Code(r);
  }

  method StepQueries(d: Disk, op: Op) returns (reply: Reply)
    requires FsOk(d) && Allowed(Ns(d), op) && (op.OpReaddir? || op.OpStat?)
    modifies d.blocks
    ensures Stepped(d, old(Ns(d)), old(d.lk), op, reply)
  {
    hide FsOk, View, GraphOf, Split, PathDomain, NamesDir, Listing, Matches, Describes;
    match op {
      case OpReaddir(path) =>
        var names := Readdir(d, path);
        reply := Names(names);
      case OpStat(path) =>
        var stat := GetStat(d, path);
        if stat.Some? {
          DescribesMatches(d.Vol(), Split(path), stat.value);
        }
        reply := Status(stat);
    }
  }

  lemma DescribesMatches(v: Vol, p: Path, s: Stat)
    requires Describes(s, v, p)
    ensures Matches(View(GraphOf(v)), p, s)
  {
    hide GraphOf, View, Resolve;
  }

  /** Every operation in its domain refines the abstract one: the reply, the whole namespace and the number
      of leaked blocks are what the abstract operation says, and the invariant is kept. The only other
      outcome is that the program exits, exactly when Exits says so. */
  method Step(d: Disk, op: Op, now: nat) returns (ok: bool, reply: Reply)
    requires FsOk(d) && Allowed(Ns(d), op) && now < 0x1_0000_0000_0000_0000
    modifies d, d.bits, d.blocks
    ensures ok <==> !Exits(old(Ns(d)), op, Room(old(d.Vol()).bm))
    ensures ok ==> Stepped(d, old(Ns(d)), old(d.lk), op, reply)
    ensures ok ==> FsOk(d) && Ns(d) == Next(old(Ns(d)), op) && Answers(old(Ns(d)), op, reply)
    ensures ok ==> old(d.lk) <= d.lk && |d.lk| == |old(d.lk)| + Leaks(old(Ns(d)), op)
  {
    hide FsOk, Ns, Allowed, Stepped, Next, Answers, Leaks, Room;
    ghost var ns, lk := Ns(d), d.lk;
    ok := true;
    match op {
      case OpMkdir(_) => ok, reply := StepDirs(d, op, now);
      case OpOpen(_) => ok, reply := StepDirs(d, op, now);
      case OpRename(_, _) => ok, reply := StepDirs(d, op, now);
      case OpWrite(_, _, _) => ok, reply := StepFiles(d, op, now);
      case OpRead(_, _, _) => ok, reply := StepFiles(d, op, now);
      case OpTruncate(_, _) => ok, reply := StepFiles(d, op, now);
      case OpRemove(_) => reply := StepRemovals(d, op);
      case OpRmdir(_) => reply := StepRemovals(d, op);
      case OpReaddir(_) => reply := StepQueries(d, op);
      case OpStat(_) => reply := StepQueries(d, op);
    }
    if ok {
      SteppedIs(d, ns, lk, op, reply);
    }
  }

  lemma SteppedIs(d: Disk, ns: NS, lk: set<nat>, op: Op, reply: Reply)
    ensures Stepped(d, ns, lk, op, reply) <==>
            && Allowed(ns, op) && FsOk(d) && Ns(d) == Next(ns, op) && Answers(ns, op, reply)
            && lk <= d.lk && |d.lk| == |lk| + Leaks(ns, op)
  {
    hide FsOk, Ns, Allowed, Next, Answers, Leaks;
  }

  // ---------------------------------------------------------------- all runs

  /** The namespace after the first i operations. */
  ghost function After(ns: NS, ops: seq<Op>, i: nat): NS
    requires i <= |ops|
  {
    if i == 0 then ns
    else
      var before := After(ns, ops, i - 1);
      if Allowed(before, ops[i - 1]) then Next(before, ops[i - 1]) else before
  }

  /** Every operation is in its domain when its turn comes. */
  ghost predicate AllAllowed(ns: NS, ops: seq<Op>)
  {
    forall i: nat | i < |ops| :: Allowed(After(ns, ops, i), ops[i])
  }

  ghost function LeaksAfter(ns: NS, ops: seq<Op>, i: nat): nat
    requires i <= |ops|
  {
    if i == 0 then 0
    else
      var before := After(ns, ops, i - 1);
      LeaksAfter(ns, ops, i - 1) + if Allowed(before, ops[i - 1]) then Leaks(before, ops[i - 1]) else 0
  }

  ghost predicate AllAnswered(ns: NS, ops: seq<Op>, replies: seq<Reply>)
  {
    |replies| <= |ops| && forall i: nat | i < |replies| :: Answered(ns, ops, i, replies[i])
  }

  ghost predicate Answered(ns: NS, ops: seq<Op>, i: nat, reply: Reply)
  {
    i < |ops| && Allowed(After(ns, ops, i), ops[i]) && Answers(After(ns, ops, i), ops[i], reply)
  }

  /** The program exits in operation i of a run that starts with that many blocks leaked. How many are free by
      then follows from the namespace and from what has leaked. */
  ghost predicate ExitsAt(ns: NS, ops: seq<Op>, i: nat, leaked: nat)
  {
    && i < |ops| && Allowed(After(ns, ops, i), ops[i])
    && Exits(After(ns, ops, i), ops[i], RoomLeft(After(ns, ops, i), leaked + LeaksAfter(ns, ops, i)))
  }

  /** The state after the first i operations of a run. */
  ghost predicate Reached(d: Disk, ns: NS, lk: set<nat>, ops: seq<Op>, i: nat)
    reads d, d.bits, d.blocks
  {
    i <= |ops| && FsOk(d) && Ns(d) == After(ns, ops, i) && lk <= d.lk && |d.lk| == |lk| + LeaksAfter(ns, ops, i)
  }

  lemma TurnAllowed(d: Disk, ns: NS, lk: set<nat>, ops: seq<Op>, i: nat)
    requires AllAllowed(ns, ops) && Reached(d, ns, lk, ops, i) && i < |ops|
    ensures FsOk(d) && Allowed(Ns(d), ops[i]) && Ns(d) == After(ns, ops, i)
    ensures lk <= d.lk && |d.lk| == |lk| + LeaksAfter(ns, ops, i)
  {
    hide FsOk, Ns, Allowed;
  }

  lemma StepReaches(d: Disk, ns: NS, lk: set<nat>, ops: seq<Op>, i: nat, before: set<nat>, reply: Reply)
    requires i < |ops| && Stepped(d, After(ns, ops, i), before, ops[i], reply)
    requires lk <= before && |before| == |lk| + LeaksAfter(ns, ops, i)
    ensures Reached(d, ns, lk, ops, i + 1) && Answered(ns, ops, i, reply)
  {
    hide FsOk, Ns, Allowed, Next, Answers, Leaks;
  }

  /** Safety over all runs: any sequence of operations in their domains, from any disk that keeps the
      invariant, answers as the abstract file system does and leaves the disk holding its final namespace.
      A run ends early exactly at the first operation in which the program exits, with right answers so far,
      and which one that is follows from the namespace, the operations and the number of blocks leaked. */
  method Run(d: Disk, ops: seq<Op>, times: seq<nat>) returns (ok: bool, replies: seq<Reply>)
    requires FsOk(d) && AllAllowed(Ns(d), ops) && |times| == |ops|
    requires forall i | 0 <= i < |times| :: times[i] < 0x1_0000_0000_0000_0000
    modifies d, d.bits, d.blocks
    ensures AllAnswered(old(Ns(d)), ops, replies)
    ensures ok <==> forall i: nat | i < |ops| :: !ExitsAt(old(Ns(d)), ops, i, |old(d.lk)|)
    ensures !ok ==> ExitsAt(old(Ns(d)), ops, |replies|, |old(d.lk)|)
    ensures forall i: nat | i < |replies| :: !ExitsAt(old(Ns(d)), ops, i, |old(d.lk)|)
    ensures ok ==> |replies| == |ops| && FsOk(d) && Ns(d) == After(old(Ns(d)), ops, |ops|)
    ensures ok ==> old(d.lk) <= d.lk && |d.lk| == |old(d.lk)| + LeaksAfter(old(Ns(d)), ops, |ops|)
  {
    hide *;
    ghost var ns, lk := Ns(d), d.lk;
    StartsReached(d, ops);
    replies := [];
    ok := true;
    var i := 0;
    while i < |ops|
      invariant 0 <= i == |replies| <= |ops|
      invariant Reached(d, ns, lk, ops, i)
      invariant forall j: nat | j < |replies| :: Answered(ns, ops, j, replies[j])
      invariant forall j: nat | j < |replies| :: !ExitsAt(ns, ops, j, |lk|)
    {
      TurnAllowed(d, ns, lk, ops, i);
      ghost var before := d.lk;
      var reply;
      ExitsNow(d, ns, lk, ops, i);
      ok, reply := Step(d, ops[i], times[i]);
      if !ok {
        AllSoFar(ns, ops, replies);
        return;
      }
      StepReaches(d, ns, lk, ops, i, before, reply);
      replies := replies + [reply];
      i := i + 1;
    }
    AllSoFar(ns, ops, replies);
    ReachedHas(d, ns, lk, ops, i);
  }

  /** What the words of a run mean, operation by operation. */
  lemma RunIs(ns: NS, ops: seq<Op>, replies: seq<Reply>, i: nat, leaked: nat)
    requires i < |ops|
    ensures After(ns, ops, 0) == ns && LeaksAfter(ns, ops, 0) == 0
    ensures var before := After(ns, ops, i);
            && (Allowed(before, ops[i]) ==>
                  && After(ns, ops, i + 1) == Next(before, ops[i])
                  && LeaksAfter(ns, ops, i + 1) == LeaksAfter(ns, ops, i) + Leaks(before, ops[i]))
            && (AllAllowed(ns, ops) ==> Allowed(before, ops[i]))
            && (AllAnswered(ns, ops, replies) && i < |replies| ==>
                  |replies| <= |ops| && Allowed(before, ops[i]) && Answers(before, ops[i], replies[i]))
            && (ExitsAt(ns, ops, i, leaked) <==>
                  && Allowed(before, ops[i])
                  && Exits(before, ops[i], RoomLeft(before, leaked + LeaksAfter(ns, ops, i))))
    ensures (forall j: nat | j < |ops| :: Allowed(After(ns, ops, j), ops[j])) ==> AllAllowed(ns, ops)
  {
    hide Allowed, Next, Leaks, Exits, Answers, RoomLeft;
    if AllAnswered(ns, ops, replies) && i < |replies| {
      assert Answered(ns, ops, i, replies[i]);
    }
  }

  lemma AllSoFar(ns: NS, ops: seq<Op>, replies: seq<Reply>)
    requires |replies| <= |ops| && forall j: nat | j < |replies| :: Answered(ns, ops, j, replies[j])
    ensures AllAnswered(ns, ops, replies)
  {
    hide Answered;
  }

  lemma ReachedHas(d: Disk, ns: NS, lk: set<nat>, ops: seq<Op>, i: nat)
    requires Reached(d, ns, lk, ops, i)
    ensures i <= |ops| && FsOk(d) && Ns(d) == After(ns, ops, i)
    ensures lk <= d.lk && |d.lk| == |lk| + LeaksAfter(ns, ops, i)
  {
    hide FsOk, Ns, After, LeaksAfter;
  }

  /** Whether the next operation exits. */
  lemma ExitsNow(d: Disk, ns: NS, lk: set<nat>, ops: seq<Op>, i: nat)
    requires AllAllowed(ns, ops) && Reached(d, ns, lk, ops, i) && i < |ops|
    ensures Allowed(Ns(d), ops[i])
    ensures ExitsAt(ns, ops, i, |lk|) <==> Exits(Ns(d), ops[i], Room(d.Vol().bm))
  {
    hide FsOk, Ns, Allowed, Exits, Room, RoomLeft;
    RoomIs(d);
  }

  lemma StartsReached(d: Disk, ops: seq<Op>)
    requires FsOk(d)
    ensures Reached(d, Ns(d), d.lk, ops, 0)
  {
    hide FsOk, Ns;
  }

  /** From a freshly formatted disk: an empty file system, with nothing leaked. */
  method RunFromFormat(blocks: array<Block>, formatted: nat, ops: seq<Op>, times: seq<nat>)
    returns (d: Disk, ok: bool, replies: seq<Reply>)
    requires blocks.Length == TOTAL_BLOCKS && formatted < 0x1_0000_0000_0000_0000
    requires AllAllowed(imap[[] := ADir(0)], ops) && |times| == |ops|
    requires forall i | 0 <= i < |times| :: times[i] < 0x1_0000_0000_0000_0000
    modifies blocks
    ensures AllAnswered(imap[[] := ADir(0)], ops, replies)
    ensures ok <==> forall i: nat | i < |ops| :: !ExitsAt(imap[[] := ADir(0)], ops, i, 0)
    ensures !ok ==> ExitsAt(imap[[] := ADir(0)], ops, |replies|, 0)
    ensures forall i: nat | i < |replies| :: !ExitsAt(imap[[] := ADir(0)], ops, i, 0)
    ensures ok ==> |replies| == |ops| && FsOk(d) && Ns(d) == After(imap[[] := ADir(0)], ops, |ops|)
    ensures ok ==> |d.lk| == LeaksAfter(imap[[] := ADir(0)], ops, |ops|)
  {
    hide FsOk, Ns, ExitsAt, AllAllowed, AllAnswered, After, LeaksAfter;
    d := FormatAndMount(blocks, formatted);
    ok, replies := Run(d, ops, times);
  }

  // ---------------------------------------------------------------- one run

  /** "/a" */
  const SAMPLE: PathStr := [47, 97]

  lemma SampleSplits()
    ensures IsValidPath(SAMPLE) && Split(SAMPLE) == [[97]]
  {
    SplitWord([97]);
    assert SAMPLE[1..] == [97];
  }

  lemma SampleNumber()
    ensures NewNumber(imap[[] := ADir(0)]) == 1
  {
    var ns: NS := imap[[] := ADir(0)];
    assert [] in ns && ns[[]].ino == 0;
    assert Used(ns, 0);
    assert !Used(ns, 1);
  }

  lemma SampleMkdir()
    ensures var ns: NS, op := imap[[] := ADir(0)], OpMkdir(SAMPLE);
            Allowed(ns, op) && Next(ns, op) == ns[[[97]] := ADir(1)] && Leaks(ns, op) == 0
  {
    SampleSplits();
    SampleNumber();
    hide Split, IsValidPath, NewNumber;
    var ns: NS := imap[[] := ADir(0)];
    assert Parent([[97]]) == [];
    assert forall p: Path | |p| < 1 :: p == [];
  }

  lemma SampleRmdir()
    ensures var ns: NS, op := imap[[] := ADir(0)], OpRmdir(SAMPLE);
            var ns1 := ns[[[97]] := ADir(1)];
            Allowed(ns1, op) && Next(ns1, op) == ns && Leaks(ns1, op) == 2
  {
    SampleSplits();
    hide Split, IsValidPath;
    var ns: NS := imap[[] := ADir(0)];
    var p: Path := [[97]];
    var ns1 := ns[p := ADir(1)];
    assert EmptyDir(ns1, p);
    assert Without(ns1, p) == ns;
    assert Alone(ns1, p);
  }

  /** With all blocks free, neither exits. */
  lemma SampleRoom()
    ensures Allowed(imap[[] := ADir(0)], OpMkdir(SAMPLE)) && !Exits(imap[[] := ADir(0)], OpMkdir(SAMPLE), 2966)
    ensures var ns1: NS := imap[[] := ADir(0)][[[97]] := ADir(1)];
            Allowed(ns1, OpRmdir(SAMPLE)) && forall room: nat :: !Exits(ns1, OpRmdir(SAMPLE), room)
  {
    SampleMkdir();
    SampleRmdir();
    SampleNumber();
    hide Allowed, Next, Leaks, Split, IsValidPath, NewNumber, EmptyDir;
  }

  /** Making a directory in an empty file system and removing it is a run in the domain that does not exit; it
      ends where it began, with two blocks leaked. */
  lemma SampleRun()
    ensures var ns: NS := imap[[] := ADir(0)];
            var ops := [OpMkdir(SAMPLE), OpRmdir(SAMPLE)];
            && AllAllowed(ns, ops) && After(ns, ops, 2) == ns && LeaksAfter(ns, ops, 2) == 2
            && forall i: nat :: !ExitsAt(ns, ops, i, 0)
  {
    hide Allowed, Next, Leaks, Exits, RoomLeft;
    FreshRoom();
    SampleRoom();
    SampleMkdir();
    SampleRmdir();
    var ns: NS, ops := imap[[] := ADir(0)], [OpMkdir(SAMPLE), OpRmdir(SAMPLE)];
    assert After(ns, ops, 0) == ns;
    assert After(ns, ops, 1) == ns[[[97]] := ADir(1)];
    assert After(ns, ops, 2) == ns;
    assert LeaksAfter(ns, ops, 0) == 0;
    assert LeaksAfter(ns, ops, 1) == 0;
  }
}
