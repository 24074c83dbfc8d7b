/** A Minix file system as the kernel sees it through the buffer cache: the zone bitmap, the blocks,
    and the inodes whose zone numbers and indirect blocks form each file's block tree. Reads of
    blocks succeed. */
module Zones {
  const BLOCK_SIZE: nat := 1024
  const PTRS: nat := 512            // zone numbers in a block
  const NDIRECT: nat := 7
  const MAX_BLOCKS: nat := 7 + 512 + 512 * 512
  const BITS: nat := 8192           // bits in a bitmap block
  const MAP_SLOTS: nat := 8

  type Block = seq<nat>

  datatype Kind = Regular | Directory | Other

  /** i_zone, i_size and the part of i_mode that truncate looks at. */
  datatype Inode = Inode(zones: seq<nat>, size: nat, kind: Kind)

  /** `zmap` is the loaded bitmap blocks end to end; zone z has bit z - first + 1. `busy` are the zones
      whose buffer someone else is holding. */
  datatype Fs = Fs(first: nat, nzones: nat, zmap: seq<bool>, blocks: seq<Block>, inodes: seq<Inode>, busy: set<nat>)

  // ---------------------------------------------------------------- blocks of zone numbers

  function ZeroBlock(): (b: Block)
    ensures |b| == BLOCK_SIZE && forall i :: 0 <= i < BLOCK_SIZE ==> b[i] == 0
  {
    seq(BLOCK_SIZE, _ => 0)
  }

  ghost predicate IsBlock(b: Block) {
    |b| == BLOCK_SIZE && forall i :: 0 <= i < BLOCK_SIZE ==> b[i] < 256
  }

  /** The i-th unsigned short of a block. */
  function Word(b: Block, i: nat): nat {
    if 2 * i + 1 < |b| then b[2 * i] + 256 * b[2 * i + 1] else 0
  }

  function SetWord(b: Block, i: nat, v: nat): Block {
    if 2 * i + 1 < |b| then b[2 * i := v % 256][2 * i + 1 := v / 256] else b
  }

  lemma SetWordEffect(b: Block, i: nat, v: nat)
    requires IsBlock(b) && i < PTRS && v < 65536
    ensures IsBlock(SetWord(b, i, v))
    ensures forall j: nat :: Word(SetWord(b, i, v), j) == if j == i then v else Word(b, j)
  {
  }

  // ---------------------------------------------------------------- the block tree

  /** A place where a zone number is kept: inode slot k; entry i of the indirect block; entry i of the
      double-indirect block; entry j of the block that entry names. */
  datatype Pos =
    | Slot(ino: nat, k: nat)
    | Ind(ino: nat, i: nat)
    | Dind(ino: nat, i: nat)
    | Leaf(ino: nat, i: nat, j: nat)

  ghost predicate Sized(s: Fs) {
    && 1 <= s.first && s.nzones <= |s.blocks| && s.nzones < 65536
    && s.nzones + 1 <= |s.zmap| + s.first
    && |s.zmap| > 0
    && (forall z :: 0 <= z < |s.blocks| ==> IsBlock(s.blocks[z]))
    && (forall ino :: 0 <= ino < |s.inodes| ==> |s.inodes[ino].zones| == 9)
  }

  /** The block that holds place p: 0 for a place in the inode itself or in a missing block. */
  function Container(s: Fs, p: Pos): nat {
    match p
    case Slot(_, _) => 0
    case Ind(ino, _) => Ptr(s, Slot(ino, 7))
    case Dind(ino, _) => Ptr(s, Slot(ino, 8))
    case Leaf(ino, i, _) => Ptr(s, Dind(ino, i))
  }

  /** The zone number kept at place p, 0 if none. */
  function Ptr(s: Fs, p: Pos): nat
    decreases match p case Slot(_, _) => 0 case Ind(_, _) => 1 case Dind(_, _) => 1 case Leaf(_, _, _) => 2
  {
    match p
    case Slot(ino, k) => if ino < |s.inodes| && k < |s.inodes[ino].zones| then s.inodes[ino].zones[k] else 0
    case Ind(ino, i) => Entry(s, Ptr(s, Slot(ino, 7)), i)
    case Dind(ino, i) => Entry(s, Ptr(s, Slot(ino, 8)), i)
    case Leaf(ino, i, j) => Entry(s, Ptr(s, Dind(ino, i)), j)
  }

  function Entry(s: Fs, z: nat, i: nat): nat {
    if z != 0 && z < |s.blocks| && i < PTRS then Word(s.blocks[z], i) else 0
  }

  function BitNo(s: Fs, z: nat): int {
    z - s.first + 1
  }

  predicate Data(s: Fs, z: nat) {
    s.first <= z < s.nzones
  }

  predicate Used(s: Fs, z: nat) {
    Data(s, z) && BitNo(s, z) < |s.zmap| && s.zmap[BitNo(s, z)]
  }

  /** Every zone number in use is that of a data zone marked used, and is kept in one place. Bit 0
      belongs to no zone and is set when the file system is made. */
  ghost predicate Inv(s: Fs) {
    && Sized(s)
    && s.zmap[0]
    && (forall p: Pos :: Ptr(s, p) != 0 ==> Used(s, Ptr(s, p)))
    && (forall p: Pos, q: Pos :: Ptr(s, p) != 0 && Ptr(s, p) == Ptr(s, q) ==> p == q)
    && (forall z :: z in s.busy ==> Used(s, z))
  }

  // ---------------------------------------------------------------- new_block, free_block

  /** The first clear bit at or after i, |m| if there is none. */
  function FirstZero(m: seq<bool>, i: nat): (j: nat)
    requires i <= |m|
    ensures i <= j <= |m| && (j < |m| ==> !m[j]) && forall k :: i <= k < j ==> m[k]
    decreases |m| - i
  {
    if i == |m| || !m[i] then i else FirstZero(m, i + 1)
  }

  /** The bit is set before the zone is checked against the size of the device. */
  function NewBlock(s: Fs): (Fs, nat)
    requires s.first >= 1
  {
    var j := FirstZero(s.zmap, 0);
    if j == |s.zmap| then (s, 0)
    else
      var s1 := s.(zmap := s.zmap[j := true]);
      var z := j + s.first - 1;
      if z >= s.nzones || z >= |s.blocks| then (s1, 0) else (s1.(blocks := s.blocks[z := ZeroBlock()]), z)
  }

  /** A call of new_block that returns 0 has still changed the bitmap exactly when some bit was clear. */
  lemma FailedNewBlockIff(s: Fs)
    requires s.first >= 1 && NewBlock(s).1 == 0
    ensures NewBlock(s).0 == s <==> forall j :: 0 <= j < |s.zmap| ==> s.zmap[j]
  {
    var j := FirstZero(s.zmap, 0);
    if j < |s.zmap| { assert !s.zmap[j] && NewBlock(s).0.zmap[j]; }
  }

  /** Where free_block does not panic. */
  predicate Freeable(s: Fs, z: nat) {
    Data(s, z) && (z in s.busy || Used(s, z))
  }

  function FreeBlock(s: Fs, z: nat): Fs
    requires Freeable(s, z)
  {
    if z in s.busy then s else s.(zmap := s.zmap[BitNo(s, z) := false])
  }

  // ---------------------------------------------------------------- writing a zone number

  function SetPtr(s: Fs, p: Pos, z: nat): Fs
    requires p.Slot? ==> p.ino < |s.inodes| && p.k < |s.inodes[p.ino].zones|
    requires !p.Slot? ==> Container(s, p) < |s.blocks|
  {
    match p
    case Slot(ino, k) =>
      s.(inodes := s.inodes[ino := s.inodes[ino].(zones := s.inodes[ino].zones[k := z])])
    case Ind(_, i) => SetEntry(s, Container(s, p), i, z)
    case Dind(_, i) => SetEntry(s, Container(s, p), i, z)
    case Leaf(_, _, j) => SetEntry(s, Container(s, p), j, z)
  }

  function SetEntry(s: Fs, b: nat, i: nat, z: nat): Fs
    requires b < |s.blocks|
  {
    s.(blocks := s.blocks[b := SetWord(s.blocks[b], i, z)])
  }

  /** A place that exists: in an inode, or in a block that is there. */
  ghost predicate Exists(s: Fs, p: Pos) {
    match p
    case Slot(ino, k) => ino < |s.inodes| && k < 9
    case Ind(ino, i) => ino < |s.inodes| && i < PTRS && Container(s, p) != 0
    case Dind(ino, i) => ino < |s.inodes| && i < PTRS && Container(s, p) != 0
    case Leaf(ino, _, j) => ino < |s.inodes| && j < PTRS && Container(s, p) != 0
  }

  lemma ContainerUsed(s: Fs, p: Pos)
    requires Inv(s) && Container(s, p) != 0
    ensures Used(s, Container(s, p)) && Container(s, p) < |s.blocks|
  {
    match p
    case Ind(ino, _) => assert Used(s, Ptr(s, Slot(ino, 7)));
    case Dind(ino, _) => assert Used(s, Ptr(s, Slot(ino, 8)));
    case Leaf(ino, i, _) => assert Used(s, Ptr(s, Dind(ino, i)));
  }
}
