/** Whole runs of writes and truncations: files are flat byte sequences, and no zone leaks. */
module FsRuns {
  import opened Zones
  import opened ZoneTree
  import opened FileBytes
  import opened Truncate

  ghost predicate Named(s: Fs, z: nat) {
    exists p: Pos :: Ptr(s, p) == z
  }

  /** Every used zone is kept somewhere in the tree of a file. */
  ghost predicate NoLeak(s: Fs) {
    forall z: nat :: Used(s, z) ==> Named(s, z)
  }

  /** Nobody holds a buffer of a zone, as between two system calls. */
  ghost predicate Quiet(s: Fs) {
    Inv(s) && s.busy == {} && NoLeak(s)
  }

  /** What processes in the middle of a call have in their hands: zones, each with the places that may name it.
      A zone that no place may name is fresh from new_block; of the others the process is holding the buffer. */
  type Hands = map<nat, set<Pos>>

  /** Every used zone is kept in the tree of a file or in somebody's hands. */
  ghost predicate Settled(s: Fs, E: Hands) {
    && Inv(s) && s.busy == (set x | x in E && E[x] != {})
    && (forall x :: x in E ==> InHand(s, x, E[x]))
    && (forall x: nat :: Used(s, x) ==> x in E || Named(s, x))
  }

  ghost predicate InHand(s: Fs, x: nat, at: set<Pos>) {
    && Used(s, x) && x < |s.blocks| && (at == {} ==> s.blocks[x] == ZeroBlock())
    && forall q: Pos :: Ptr(s, q) == x ==> q in at
  }

  lemma QuietIsSettled(s: Fs)
    ensures Quiet(s) <==> Settled(s, map[])
  {
    hide Inv, Used, Named;
  }

  lemma AllocSettled(s: Fs, p: Pos, E: Hands)
    requires Settled(s, E) && Exists(s, p)
    ensures Settled(AllocAt(s, p).0, E) && |AllocAt(s, p).0.inodes| == |s.inodes|
              && Ptr(AllocAt(s, p).0, p) == AllocAt(s, p).1
    ensures p.Dind? ==> Ptr(AllocAt(s, p).0, Slot(p.ino, 8)) == Ptr(s, Slot(p.ino, 8))
  {
    AllocEffect(s, p);
    var (r, y) := AllocAt(s, p);
    forall x | x in E ensures InHand(r, x, E[x]) {
      assert InHand(s, x, E[x]);
      ContainerNamed(s, p);
      assert E[x] == {} ==> x != Container(s, p);
    }
    hide Inv, AllocAt, InHand;
    forall z: nat | Used(r, z) && z !in E ensures Named(r, z) {
      if Used(s, z) {
        var q: Pos :| Ptr(s, q) == z;
        assert Ptr(r, q) == if q == p then y else z;
        assert q == p ==> z == y;
      } else {
        assert Ptr(r, p) == z;
      }
    }
  }

  /** A block that a place is kept in is named. */
  lemma ContainerNamed(s: Fs, p: Pos)
    ensures Container(s, p) != 0 ==> !p.Slot? && Ptr(s, Up(p)) == Container(s, p)
  {
  }

  lemma AllocNoLeak(s: Fs, p: Pos)
    requires Quiet(s) && Exists(s, p)
    ensures Quiet(AllocAt(s, p).0) && |AllocAt(s, p).0.inodes| == |s.inodes|
              && Ptr(AllocAt(s, p).0, p) == AllocAt(s, p).1
  {
    QuietIsSettled(s);
    AllocSettled(s, p, map[]);
    QuietIsSettled(AllocAt(s, p).0);
    hide *;
  }

  lemma CreateSettled(s: Fs, ino: nat, n: nat, E: Hands)
    requires Settled(s, E) && ino < |s.inodes| && n < MAX_BLOCKS
    ensures Settled(CreateBlock(s, ino, n).0, E)
  {
    if n < NDIRECT {
      AllocSettled(s, Slot(ino, n), E);
    } else if n < NDIRECT + PTRS {
      SingleSettled(s, ino, n - NDIRECT, E);
    } else {
      DoubleSettled(s, ino, n - NDIRECT - PTRS, E);
    }
    hide Settled, AllocAt;
  }

  lemma SingleSettled(s: Fs, ino: nat, m: nat, E: Hands)
    requires Settled(s, E) && ino < |s.inodes| && m < PTRS
    ensures Settled(CreateBlock(s, ino, NDIRECT + m).0, E)
  {
    AllocSettled(s, Slot(ino, 7), E);
    var (s1, a) := AllocAt(s, Slot(ino, 7));
    if a != 0 { AllocSettled(s1, Ind(ino, m), E); }
    hide Settled, AllocAt;
  }

  lemma DoubleSettled(s: Fs, ino: nat, m: nat, E: Hands)
    requires Settled(s, E) && ino < |s.inodes| && m < PTRS * PTRS
    ensures Settled(CreateBlock(s, ino, NDIRECT + PTRS + m).0, E)
  {
    AllocSettled(s, Slot(ino, 8), E);
    var (s1, a) := AllocAt(s, Slot(ino, 8));
    if a != 0 {
      AllocSettled(s1, Dind(ino, m / PTRS), E);
      var (s2, b) := AllocAt(s1, Dind(ino, m / PTRS));
      if b != 0 { AllocSettled(s2, Leaf(ino, m / PTRS, m % PTRS), E); }
    }
    hide Settled, AllocAt;
  }

  lemma CreateNoLeak(s: Fs, ino: nat, n: nat)
    requires Quiet(s) && ino < |s.inodes| && n < MAX_BLOCKS
    ensures Quiet(CreateBlock(s, ino, n).0)
  {
    QuietIsSettled(s);
    CreateSettled(s, ino, n, map[]);
    QuietIsSettled(CreateBlock(s, ino, n).0);
    hide *;
  }

  /** States that name the same zones and mark the same ones used, and in which no unnamed zone has changed. */
  lemma SameSettled(s: Fs, r: Fs, E: Hands)
    requires Settled(s, E) && Inv(r) && r.busy == s.busy && |r.blocks| == |s.blocks|
    requires (forall p: Pos :: Ptr(r, p) == Ptr(s, p)) && (forall z: nat :: Used(r, z) == Used(s, z))
    requires forall x: nat :: x < |s.blocks| && !Named(s, x) ==> r.blocks[x] == s.blocks[x]
    ensures Settled(r, E)
  {
    hide Inv, Ptr, Used;
    forall x | x in E ensures InHand(r, x, E[x]) { assert InHand(s, x, E[x]); }
    forall z: nat | Used(r, z) && z !in E ensures Named(r, z) {
      assert Named(s, z);
      var q: Pos :| Ptr(s, q) == z;
      assert Ptr(r, q) == z;
    }
  }

  lemma StoreSettled(s: Fs, ino: nat, pos: nat, data: seq<nat>, E: Hands)
    requires Inv(s) && Settled(s, E) && ino < |s.inodes| && pos < MAX_BYTES && data != [] && Bytes(data)
    requires pos / BLOCK_SIZE < MAX_BLOCKS && Bmap(s, ino, pos / BLOCK_SIZE) != 0
    ensures var z := Bmap(s, ino, pos / BLOCK_SIZE);
            z < |s.blocks| && |s.blocks[z]| == BLOCK_SIZE
            && Inv(WriteRound(s, ino, z, pos, data)) && Settled(WriteRound(s, ino, z, pos, data), E)
  {
    RoundSound(s, ino, pos, data);
    BmapNamed(s, ino, pos / BLOCK_SIZE);
    RoundBlocks(s, ino, Bmap(s, ino, pos / BLOCK_SIZE), pos, data);
    hide Inv, Settled, Bmap, WriteRound, Bytes, Ptr, Used, Named;
    SameSettled(s, WriteRound(s, ino, Bmap(s, ino, pos / BLOCK_SIZE), pos, data), E);
  }

  lemma BmapNamed(s: Fs, ino: nat, n: nat)
    ensures Named(s, Bmap(s, ino, n))
  {
    assert Ptr(s, LeafPos(ino, n)) == Bmap(s, ino, n);
  }

  /** One round, allocation included. */
  lemma RoundSettled(s: Fs, ino: nat, pos: nat, data: seq<nat>, s1: Fs, z: nat, E: Hands)
    requires Inv(s) && Settled(s, E)
    requires ino < |s.inodes| && pos + |data| <= MAX_BYTES && data != [] && Bytes(data)
    requires pos / BLOCK_SIZE < MAX_BLOCKS && CreateBlock(s, ino, pos / BLOCK_SIZE) == (s1, z)
    ensures Inv(s1) && Settled(s1, E) && |s1.inodes| == |s.inodes|
    ensures z != 0 ==> z < |s1.blocks| && |s1.blocks[z]| == BLOCK_SIZE
                       && Inv(WriteRound(s1, ino, z, pos, data)) && Settled(WriteRound(s1, ino, z, pos, data), E)
  {
    CreateSettled(s, ino, pos / BLOCK_SIZE, E);
    CreateBlockEffect(s, ino, pos / BLOCK_SIZE);
    assert z != 0 ==> Bmap(s1, ino, pos / BLOCK_SIZE) == z;
    hide Settled, Inv, CreateBlock, Bmap, WriteRound, Bytes;
    if z != 0 { StoreSettled(s1, ino, pos, data, E); }
  }

  /** The state r after one round, whether it was the last, and the bytes it covered. */
  lemma FirstRound(s: Fs, ino: nat, pos: nat, data: seq<nat>, E: Hands) returns (r: Fs, last: bool, c: nat)
    requires Inv(s) && Settled(s, E)
    requires ino < |s.inodes| && pos + |data| <= MAX_BYTES && data != [] && Bytes(data)
    ensures Settled(r, E) && Inv(r) && ino < |r.inodes| && 0 < c <= |data| && Bytes(data[c..])
    ensures FileWrite(s, ino, pos, data).0 == if last then r else FileWrite(r, ino, pos + c, data[c..]).0
  {
    hide Inv, Settled, CreateBlock, WriteRound, FileWrite, Bytes;
    var s1, z := BlockWanted(s, ino, pos);
    RoundSettled(s, ino, pos, data, s1, z, E);
    FileWriteStep(s, ino, pos, data, s1, z);
    c := ChunkLen(pos, |data|);
    last := z == 0;
    r := if z == 0 then s1 else WriteRound(s1, ino, z, pos, data);
  }

  lemma {:induction false} WriteSettled(s: Fs, ino: nat, pos: nat, data: seq<nat>, E: Hands)
    requires Inv(s) && Settled(s, E) && ino < |s.inodes| && pos + |data| <= MAX_BYTES && Bytes(data)
    ensures Settled(FileWrite(s, ino, pos, data).0, E)
    decreases |data|
  {
    hide Settled, Inv, FileWrite, Bytes;
    if data == [] {
      FileWriteDone(s, ino, pos);
    } else {
      var r, last, c := FirstRound(s, ino, pos, data, E);
      if !last { WriteSettled(r, ino, pos + c, data[c..], E); }
    }
  }

  lemma WriteNoLeak(s: Fs, ino: nat, pos: nat, data: seq<nat>)
    requires Inv(s) && Quiet(s) && ino < |s.inodes| && pos + |data| <= MAX_BYTES && Bytes(data)
    ensures Quiet(FileWrite(s, ino, pos, data).0)
  {
    hide Quiet, Inv, Settled, FileWrite, Bytes;
    QuietIsSettled(s);
    WriteSettled(s, ino, pos, data, map[]);
    QuietIsSettled(FileWrite(s, ino, pos, data).0);
  }

  /** A place where a zone number is kept is one that truncate visits. */
  lemma PlaceInTree(s: Fs, p: Pos)
    requires Sized(s) && Ptr(s, p) != 0
    ensures InTree(p.ino, p)
  {
    if p.Leaf? { assert Ptr(s, Dind(p.ino, p.i)) != 0; }
  }

  /** truncate frees what it finds in the tree, except what somebody is holding: that stays in hand, but no place
      names it any more. */
  lemma TruncateSettled(s: Fs, ino: nat, E: Hands)
    requires Settled(s, E) && ino < |s.inodes|
    ensures Settled(TruncateFile(s, ino), E) && |TruncateFile(s, ino).inodes| == |s.inodes|
  {
    if s.inodes[ino].kind != Other {
      TruncateEffect(s, ino);
      TreeIsNamed(s, ino);
      var r := TruncateFile(s, ino);
      assert r.blocks == s.blocks && r.busy == s.busy;
      hide Inv, TruncateFile, TreeSet;
      forall x | x in E ensures InHand(r, x, E[x]) {
        assert InHand(s, x, E[x]);
        assert x in s.busy || x !in TreeSet(s, ino);
      }
      forall z: nat | Used(r, z) && z !in E ensures Named(r, z) {
        assert Named(s, z) && z !in s.busy;
        var p: Pos :| Ptr(s, p) == z;
        StillNamed(s, ino, p);
        assert Ptr(r, p) == z;
      }
    }
  }

  lemma TreeIsNamed(s: Fs, ino: nat)
    requires Inv(s) && ino < |s.inodes|
    ensures forall z: nat :: z in TreeSet(s, ino) ==> Named(s, z)
    ensures s.busy == TruncateFile(s, ino).busy && TruncateFile(s, ino).blocks == s.blocks
  {
    TreeReleasable(s, ino);
    FreedEffect(s, TreeZones(s, ino));
    hide TreeZones, Releasable, FreeZones;
  }

  /** What the tree of the file names goes, if it can. */
  lemma StillNamed(s: Fs, ino: nat, p: Pos)
    requires Inv(s) && ino < |s.inodes| && Ptr(s, p) != 0
    ensures p.ino == ino ==> Ptr(s, p) in TreeSet(s, ino)
  {
    TreeReleasable(s, ino);
    if p.ino == ino { PlaceInTree(s, p); }
  }

  lemma TruncateNoLeak(s: Fs, ino: nat)
    requires Quiet(s) && ino < |s.inodes|
    ensures Quiet(TruncateFile(s, ino)) && |TruncateFile(s, ino).inodes| == |s.inodes|
  {
    QuietIsSettled(s);
    TruncateSettled(s, ino, map[]);
    QuietIsSettled(TruncateFile(s, ino));
    hide *;
  }

  // ---------------------------------------------------------------- runs

  /** A file system as it is made: empty files, no zone in use, bit 0 of the bitmap set. */
  function Made(first: nat, nzones: nat, bits: nat, inodes: nat): Fs {
    Fs(first, nzones, seq(bits, j => j == 0), seq(nzones, _ => ZeroBlock()),
       seq(inodes, _ => Inode(NoZones(), 0, Regular)), {})
  }

  lemma MadeIsQuiet(first: nat, nzones: nat, bits: nat, inodes: nat)
    requires 1 <= first && nzones < 65536 && bits > 0 && nzones + 1 <= bits + first
    ensures Quiet(Made(first, nzones, bits, inodes))
    ensures forall ino: nat, q: nat :: FileByte(Made(first, nzones, bits, inodes), ino, q) == 0
  {
    var s := Made(first, nzones, bits, inodes);
    forall ino | 0 <= ino < inodes ensures s.inodes[ino] == Inode(NoZones(), 0, Regular) {}
    forall p: Pos ensures Ptr(s, p) == 0 { MadeIsEmpty(s, p); }
    forall z: nat ensures !Used(s, z) {}
  }

  lemma MadeIsEmpty(s: Fs, p: Pos)
    requires forall ino :: 0 <= ino < |s.inodes| ==> s.inodes[ino].zones == NoZones()
    ensures Ptr(s, p) == 0
  {
    match p
    case Slot(_, _) =>
    case Ind(ino, _) => assert Ptr(s, Slot(ino, 7)) == 0;
    case Dind(ino, _) => assert Ptr(s, Slot(ino, 8)) == 0;
    case Leaf(ino, i, _) => assert Ptr(s, Slot(ino, 8)) == 0 && Ptr(s, Dind(ino, i)) == 0;
  }

  /** What system calls do to file contents: file_write, and truncate when a file is opened to be rewritten or
      is removed. */
  datatype Op = Write(ino: nat, pos: nat, data: seq<nat>) | Drop(ino: nat)

  ghost predicate Enabled(s: Fs, op: Op) {
    && op.ino < |s.inodes|
    && (op.Write? ==> op.pos + |op.data| <= MAX_BYTES && Bytes(op.data))
  }

  /** The file system after op, and how many bytes were written, or 1 if a tree was dropped. */
  ghost function Step(s: Fs, op: Op): (r: (Fs, nat))
    requires Inv(s) && Enabled(s, op)
    ensures Inv(r.0) && |r.0.inodes| == |s.inodes|
    ensures op.Write? ==> r.1 <= |op.data|
  {
    match op
    case Write(ino, pos, data) =>
      WriteEffect(s, ino, pos, data);
      FileWrite(s, ino, pos, data)
    case Drop(ino) =>
      if s.inodes[ino].kind == Other then (s, 0)
      else
        TruncateEffect(s, ino);
        (TruncateFile(s, ino), 1)
  }

  /** A call of somebody else leaves what is in hand alone. */
  lemma StepSettled(s: Fs, op: Op, E: Hands)
    requires Inv(s) && Settled(s, E) && Enabled(s, op)
    ensures Settled(Step(s, op).0, E)
  {
    hide Settled, Inv, FileWrite, Bytes;
    match op
    case Write(ino, pos, data) => WriteSettled(s, ino, pos, data, E);
    case Drop(ino) => TruncateSettled(s, ino, E);
  }

  /** Files as flat sequences of bytes: no blocks, no zones, no bitmap. */
  type Files = (nat, nat) -> nat

  ghost predicate Shows(s: Fs, f: Files) {
    forall ino: nat, q: nat :: q < MAX_BYTES ==> f(ino, q) == FileByte(s, ino, q)
  }

  ghost function FlatStep(f: Files, op: Op, n: nat): Files
    requires op.Write? ==> n <= |op.data|
  {
    match op
    case Write(i, pos, data) =>
      (ino: nat, q: nat) => if ino == i && pos <= q < pos + n then data[q - pos] else f(ino, q)
    case Drop(i) => (ino: nat, q: nat) => if ino == i && n == 1 then 0 else f(ino, q)
  }

  /** One call makes the matching step on flat files; a write that falls short has left no data zone free. */
  lemma StepIsFlat(s: Fs, f: Files, op: Op)
    requires Inv(s) && Enabled(s, op) && Shows(s, f)
    ensures Shows(Step(s, op).0, FlatStep(f, op, Step(s, op).1))
    ensures op.Write? && Step(s, op).1 < |op.data| ==> Full(Step(s, op).0)
  {
    match op
    case Write(ino, pos, data) => WriteEffect(s, ino, pos, data); hide FileWrite, FileByte, Inv, Full, Quiet;
      WroteShows(s, FileWrite(s, ino, pos, data).0, f, op, FileWrite(s, ino, pos, data).1);
    case Drop(ino) => DropShows(s, f, ino); hide Quiet, TruncateFile, Shows;
  }

  lemma WroteShows(s: Fs, r: Fs, f: Files, op: Op, n: nat)
    requires op.Write? && n <= |op.data| && Shows(s, f) && Wrote(s, r, op.ino, op.pos, op.data, n)
    ensures Shows(r, FlatStep(f, op, n))
  {
    hide FileByte;
  }

  lemma DropShows(s: Fs, f: Files, ino: nat)
    requires Inv(s) && ino < |s.inodes| && |s.inodes[ino].zones| == 9 && Shows(s, f)
    ensures Shows(TruncateFile(s, ino), FlatStep(f, Drop(ino), if s.inodes[ino].kind == Other then 0 else 1))
  {
    if s.inodes[ino].kind != Other { TruncateEffect(s, ino); }
    hide FileByte, Inv, Used;
  }

  ghost predicate EnabledRun(s: Fs, ops: seq<Op>)
    requires Inv(s)
    decreases |ops|
  {
    ops == [] || (Enabled(s, ops[0]) && EnabledRun(Step(s, ops[0]).0, ops[1..]))
  }

  ghost function Run(s: Fs, ops: seq<Op>): (r: Fs)
    requires Inv(s) && EnabledRun(s, ops)
    ensures Inv(r)
    decreases |ops|
  {
    if ops == [] then s else Run(Step(s, ops[0]).0, ops[1..])
  }

  ghost function FlatRun(s: Fs, f: Files, ops: seq<Op>): Files
    requires Inv(s) && EnabledRun(s, ops)
    decreases |ops|
  {
    if ops == [] then f else FlatRun(Step(s, ops[0]).0, FlatStep(f, ops[0], Step(s, ops[0]).1), ops[1..])
  }

  lemma {:induction false} RunSettled(s: Fs, ops: seq<Op>, E: Hands)
    requires Inv(s) && EnabledRun(s, ops) && Settled(s, E)
    ensures Settled(Run(s, ops), E)
    decreases |ops|
  {
    hide Inv, Settled, Step, Enabled;
    if ops != [] {
      StepSettled(s, ops[0], E);
      RunSettled(Step(s, ops[0]).0, ops[1..], E);
    }
  }

  lemma {:induction false} RunKeepsShape(s: Fs, ops: seq<Op>)
    requires Inv(s) && EnabledRun(s, ops)
    ensures |Run(s, ops).inodes| == |s.inodes| && |Run(s, ops).blocks| == |s.blocks|
    decreases |ops|
  {
    hide Inv, Step, Enabled;
    if ops != [] {
      StepKeepsShape(s, ops[0]);
      RunKeepsShape(Step(s, ops[0]).0, ops[1..]);
    }
  }

  lemma StepKeepsShape(s: Fs, op: Op)
    requires Inv(s) && Enabled(s, op)
    ensures |Step(s, op).0.blocks| == |s.blocks|
  {
    match op
    case Write(ino, pos, data) => WriteKeepsShape(s, ino, pos, data); hide *;
    case Drop(ino) => TreeIsNamed(s, ino); hide *;
  }

  lemma {:induction false} WriteKeepsShape(s: Fs, ino: nat, pos: nat, data: seq<nat>)
    requires Inv(s) && ino < |s.inodes| && pos + |data| <= MAX_BYTES && Bytes(data)
    ensures |FileWrite(s, ino, pos, data).0.blocks| == |s.blocks|
    decreases |data|
  {
    hide Inv, FileWrite, Bytes, Wrote, Full, CreateBlock, WriteRound, SameShape;
    if data == [] {
      FileWriteDone(s, ino, pos);
    } else {
      var s1, z := BlockWanted(s, ino, pos);
      FileWriteStep(s, ino, pos, data, s1, z);
      CreateKeepsShape(s, ino, pos / BLOCK_SIZE);
      if z != 0 {
        RoundBlocks(s1, ino, z, pos, data);
        var c := ChunkLen(pos, |data|);
        WriteKeepsShape(WriteRound(s1, ino, z, pos, data), ino, pos + c, data[c..]);
      }
    }
  }

  lemma CreateKeepsShape(s: Fs, ino: nat, n: nat)
    requires Inv(s) && ino < |s.inodes| && n < MAX_BLOCKS
    ensures |CreateBlock(s, ino, n).0.blocks| == |s.blocks|
  {
    CreateBlockEffect(s, ino, n);
    hide Inv, CreateBlock;
  }

  lemma {:induction false} RunShows(s: Fs, f: Files, ops: seq<Op>)
    requires Inv(s) && EnabledRun(s, ops) && Shows(s, f)
    ensures Shows(Run(s, ops), FlatRun(s, f, ops))
    decreases |ops|
  {
    hide Inv, Step, Shows, FlatStep, Enabled;
    if ops != [] {
      StepIsFlat(s, f, ops[0]);
      RunShows(Step(s, ops[0]).0, FlatStep(f, ops[0], Step(s, ops[0]).1), ops[1..]);
    }
  }

  /** Over every run of writes and truncations of any files, the files are flat byte sequences changed by
      nothing but those calls, and a zone is marked used exactly when some file's tree names it: none leaks and
      none is shared. */
  lemma RunIsFlat(s: Fs, f: Files, ops: seq<Op>)
    requires Inv(s) && Quiet(s) && EnabledRun(s, ops) && Shows(s, f)
    ensures Quiet(Run(s, ops)) && Shows(Run(s, ops), FlatRun(s, f, ops))
    ensures forall z: nat :: z != 0 ==> (Used(Run(s, ops), z) <==> Named(Run(s, ops), z))
    ensures forall p: Pos, q: Pos :: Ptr(Run(s, ops), p) != 0 && Ptr(Run(s, ops), p) == Ptr(Run(s, ops), q) ==> p == q
  {
    QuietIsSettled(s);
    RunSettled(s, ops, map[]);
    QuietIsSettled(Run(s, ops));
    RunShows(s, f, ops);
    UsedIsNamed(Run(s, ops));
    hide *;
  }

  lemma UsedIsNamed(s: Fs)
    requires Quiet(s)
    ensures forall z: nat :: z != 0 ==> (Used(s, z) <==> Named(s, z))
    ensures forall p: Pos, q: Pos :: Ptr(s, p) != 0 && Ptr(s, p) == Ptr(s, q) ==> p == q
  {
  }
}
