/** Files as byte sequences on top of the block map: `file_write` and `file_read` of `fs/file_dev.c`. */
module FileBytes {
  import opened Basics
  import opened Zones
  import opened ZoneTree

  const MAX_BYTES: nat := MAX_BLOCKS * BLOCK_SIZE

  /** Byte q of a file: 0 where no block is mapped. */
  function FileByte(s: Fs, ino: nat, q: nat): nat {
    var z := Bmap(s, ino, q / BLOCK_SIZE);
    if z != 0 && z < |s.blocks| && q % BLOCK_SIZE < |s.blocks[z]| then s.blocks[z][q % BLOCK_SIZE] else 0
  }

  function Max(a: nat, b: nat): nat {
    if a < b then b else a
  }

  function Splice(b: Block, off: nat, chunk: seq<nat>): Block
    requires off + |chunk| <= |b|
  {
    b[..off] + chunk + b[off + |chunk|..]
  }

  function StoreChunk(s: Fs, z: nat, off: nat, chunk: seq<nat>): Fs
    requires z < |s.blocks| && off + |chunk| <= |s.blocks[z]|
  {
    s.(blocks := s.blocks[z := Splice(s.blocks[z], off, chunk)])
  }

  /** i_size grows to pos if it was smaller. */
  function Grow(s: Fs, ino: nat, pos: nat): Fs
    requires ino < |s.inodes|
  {
    s.(inodes := s.inodes[ino := s.inodes[ino].(size := Max(s.inodes[ino].size, pos))])
  }

  // ---------------------------------------------------------------- one chunk

  lemma ByteOfBlock(n: nat, q: nat, off: nat, len: nat)
    requires off + len <= BLOCK_SIZE
    ensures q / BLOCK_SIZE == n && off <= q % BLOCK_SIZE < off + len <==>
              n * BLOCK_SIZE + off <= q < n * BLOCK_SIZE + off + len
    ensures q / BLOCK_SIZE == n ==> q % BLOCK_SIZE == q - n * BLOCK_SIZE
  {
  }

  /** Writing into the zone of a file block moves no zone number. */
  lemma ChunkKeepsMap(s: Fs, ino: nat, n: nat, off: nat, chunk: seq<nat>)
    requires Inv(s) && n < MAX_BLOCKS && Bmap(s, ino, n) != 0 && off + |chunk| <= BLOCK_SIZE
    requires Bytes(chunk)
    ensures Bmap(s, ino, n) < |s.blocks|
    ensures var s' := StoreChunk(s, Bmap(s, ino, n), off, chunk);
            Inv(s') && s'.inodes == s.inodes && s'.busy == s.busy && (forall p: Pos :: Ptr(s', p) == Ptr(s, p))
            && (forall x: nat :: Used(s', x) == Used(s, x))
  {
    BlockMapped(s, ino, n);
    var s' := StoreChunk(s, Bmap(s, ino, n), off, chunk);
    ChunkKeepsPtrs(s, ino, n, s');
    assert IsBlock(s'.blocks[Bmap(s, ino, n)]);
    InvKept(s, s', Slot(0, 0), Ptr(s, Slot(0, 0)));
    hide Ptr;
  }

  lemma ChunkKeepsPtrs(s: Fs, ino: nat, n: nat, s': Fs)
    requires Inv(s) && n < MAX_BLOCKS && Bmap(s, ino, n) != 0 && s'.inodes == s.inodes && |s'.blocks| == |s.blocks|
    requires forall x: nat :: x < |s.blocks| && x != Bmap(s, ino, n) ==> s'.blocks[x] == s.blocks[x]
    ensures forall p: Pos :: Ptr(s', p) == Ptr(s, p)
  {
    LeafNotInner(ino, n);
    forall p: Pos | Container(s, p) != 0 ensures Container(s, p) != Bmap(s, ino, n) { ContainerInner(s, p); }
    PtrsKept(s, s');
  }

  /** Writing a chunk changes the bytes it covers and no other byte of any file. */
  lemma ChunkBytes(s: Fs, ino: nat, n: nat, off: nat, chunk: seq<nat>, ino': nat, q: nat)
    requires Inv(s) && n < MAX_BLOCKS && Bmap(s, ino, n) != 0 && off + |chunk| <= BLOCK_SIZE
    requires Bytes(chunk)
    requires q < MAX_BYTES
    ensures Bmap(s, ino, n) < |s.blocks|
    ensures var s' := StoreChunk(s, Bmap(s, ino, n), off, chunk);
            var at := n * BLOCK_SIZE + off;
            FileByte(s', ino', q) == if ino' == ino && at <= q < at + |chunk| then chunk[q - at]
                else FileByte(s, ino', q)
  {
    ChunkKeepsMap(s, ino, n, off, chunk);
    ByteOfBlock(n, q, off, |chunk|);
    var n' := q / BLOCK_SIZE;
    if Bmap(s, ino', n') == Bmap(s, ino, n) { LeafPosInjective(ino', n', ino, n); }
  }

  lemma GrowKeeps(s: Fs, ino: nat, pos: nat)
    requires Inv(s) && ino < |s.inodes|
    ensures var s' := Grow(s, ino, pos);
            && Inv(s') && |s'.inodes| == |s.inodes| && s'.busy == s.busy
            && (forall p: Pos :: Ptr(s', p) == Ptr(s, p)) && (forall x: nat :: Used(s', x) == Used(s, x))
            && forall ino': nat, q: nat :: FileByte(s', ino', q) == FileByte(s, ino', q)
  {
    var s' := Grow(s, ino, pos);
    forall p: Pos ensures Ptr(s', p) == Ptr(s, p) { PtrAfterGrow(s, ino, pos, p); }
  }

  lemma PtrAfterGrow(s: Fs, ino: nat, pos: nat, p: Pos)
    requires ino < |s.inodes|
    ensures Ptr(Grow(s, ino, pos), p) == Ptr(s, p)
    decreases match p case Slot(_, _) => 0 case Ind(_, _) => 1 case Dind(_, _) => 1 case Leaf(_, _, _) => 2
  {
    match p
    case Slot(_, _) =>
    case Ind(ino', _) => PtrAfterGrow(s, ino, pos, Slot(ino', 7));
    case Dind(ino', _) => PtrAfterGrow(s, ino, pos, Slot(ino', 8));
    case Leaf(ino', i, _) => PtrAfterGrow(s, ino, pos, Dind(ino', i));
  }

  /** Allocating a block shows no new byte: a hole read zero, and so does a fresh block. */
  lemma CreateKeepsBytes(s: Fs, ino: nat, n: nat, ino': nat, q: nat)
    requires Inv(s) && ino < |s.inodes| && n < MAX_BLOCKS && q < MAX_BYTES
    ensures FileByte(CreateBlock(s, ino, n).0, ino', q) == FileByte(s, ino', q)
  {
    CreateBlockEffect(s, ino, n);
    if Bmap(s, ino, n) != 0 { CreateExisting(s, ino, n); }
    var n', r := q / BLOCK_SIZE, CreateBlock(s, ino, n).0;
    assert n' < MAX_BLOCKS;
    hide Inv, Bmap, CreateBlock;
    if Bmap(s, ino', n') != 0 {
      assert Bmap(r, ino', n') == Bmap(s, ino', n');
      assert r.blocks[Bmap(s, ino', n')] == s.blocks[Bmap(s, ino', n')];
    } else if Bmap(r, ino', n') != 0 {
      assert r.blocks[Bmap(r, ino', n')] == ZeroBlock();
    }
  }

  // ---------------------------------------------------------------- file_write

  ghost predicate Bytes(data: seq<nat>) {
    forall i :: 0 <= i < |data| ==> data[i] < 256
  }

  function ChunkLen(pos: nat, left: nat): nat {
    Min(BLOCK_SIZE - pos % BLOCK_SIZE, left)
  }

  /** One round of file_write after the block has been found: the data, then i_size. */
  function WriteRound(s: Fs, ino: nat, z: nat, pos: nat, data: seq<nat>): Fs
    requires ino < |s.inodes| && z < |s.blocks| && |s.blocks[z]| == BLOCK_SIZE
  {
    Grow(StoreChunk(s, z, pos % BLOCK_SIZE, data[..ChunkLen(pos, |data|)]), ino, pos + ChunkLen(pos, |data|))
  }

  /** r is s with the first n bytes of data at pos of file ino, and nothing else changed in any file. */
  ghost predicate Wrote(s: Fs, r: Fs, ino: nat, pos: nat, data: seq<nat>, n: nat)
    requires n <= |data|
  {
    && |r.inodes| == |s.inodes|
    && (forall i: nat :: i < |s.inodes| ==>
          r.inodes[i].kind == s.inodes[i].kind
          && r.inodes[i].size == if i == ino && n > 0 then Max(s.inodes[i].size, pos + n) else s.inodes[i].size)
    && (forall ino': nat, q: nat :: q < MAX_BYTES ==>
          FileByte(r, ino', q) == if ino' == ino && pos <= q < pos + n then data[q - pos] else FileByte(s, ino', q))
  }

  lemma WroteThen(s: Fs, s2: Fs, r: Fs, ino: nat, pos: nat, data: seq<nat>, c: nat, n: nat)
    requires 0 < c && c + n <= |data| && Wrote(s, s2, ino, pos, data, c) && Wrote(s2, r, ino, pos + c, data[c..], n)
    ensures Wrote(s, r, ino, pos, data, c + n)
  {
    hide FileByte;
    forall ino': nat, q: nat | q < MAX_BYTES
      ensures FileByte(r, ino', q) == if ino' == ino && pos <= q < pos + (c + n) then data[q - pos]
                else FileByte(s, ino', q)
    {
      if ino' == ino && pos + c <= q < pos + (c + n) { assert data[c..][q - (pos + c)] == data[q - pos]; }
    }
  }

  /** Allocation succeeds with a whole block, or the disk is full. */
  lemma RoundAlloc(s: Fs, ino: nat, pos: nat)
    requires Inv(s) && ino < |s.inodes| && pos < MAX_BYTES
    ensures var (s1, z) := CreateBlock(s, ino, pos / BLOCK_SIZE);
            && pos / BLOCK_SIZE < MAX_BLOCKS
            && Inv(s1) && SameShape(s, s1) && (z == 0 ==> Full(s1))
            && (z != 0 ==> z == Bmap(s1, ino, pos / BLOCK_SIZE) && z < |s1.blocks| && |s1.blocks[z]| == BLOCK_SIZE)
  {
    CreateBlockEffect(s, ino, pos / BLOCK_SIZE);
    var (s1, z) := CreateBlock(s, ino, pos / BLOCK_SIZE);
    if z != 0 { assert Used(s1, z); }
  }

  /** A round changes no zone number. */
  lemma RoundSound(s1: Fs, ino: nat, pos: nat, data: seq<nat>)
    requires Inv(s1) && ino < |s1.inodes| && pos < MAX_BYTES && data != [] && Bytes(data)
    requires pos / BLOCK_SIZE < MAX_BLOCKS && Bmap(s1, ino, pos / BLOCK_SIZE) != 0
    ensures var z := Bmap(s1, ino, pos / BLOCK_SIZE);
            && z < |s1.blocks| && |s1.blocks[z]| == BLOCK_SIZE
            && var r := WriteRound(s1, ino, z, pos, data);
            && Inv(r) && r.busy == s1.busy && |r.inodes| == |s1.inodes|
            && (forall p: Pos :: Ptr(r, p) == Ptr(s1, p)) && (forall x: nat :: Used(r, x) == Used(s1, x))
  {
    hide Inv, Ptr, Bmap, Used, Splice, FileByte, Bytes, StoreChunk, Grow;
    var n, c := pos / BLOCK_SIZE, ChunkLen(pos, |data|);
    BlockMapped(s1, ino, n);
    BytesPrefix(data, c);
    ChunkSound(s1, ino, n, pos % BLOCK_SIZE, data[..c], pos + c);
  }

  lemma RoundBlocks(s: Fs, ino: nat, z: nat, pos: nat, data: seq<nat>)
    requires ino < |s.inodes| && z < |s.blocks| && |s.blocks[z]| == BLOCK_SIZE
    ensures var r := WriteRound(s, ino, z, pos, data);
            |r.blocks| == |s.blocks| && forall x: nat :: x < |s.blocks| && x != z ==> r.blocks[x] == s.blocks[x]
  {
  }

  lemma ChunkSound(s: Fs, ino: nat, n: nat, off: nat, chunk: seq<nat>, end: nat)
    requires Inv(s) && ino < |s.inodes| && n < MAX_BLOCKS && Bmap(s, ino, n) != 0
    requires off + |chunk| <= BLOCK_SIZE && Bytes(chunk)
    ensures Bmap(s, ino, n) < |s.blocks| && |s.blocks[Bmap(s, ino, n)]| == BLOCK_SIZE
    ensures var r := Grow(StoreChunk(s, Bmap(s, ino, n), off, chunk), ino, end);
            && Inv(r) && r.busy == s.busy && |r.inodes| == |s.inodes|
            && (forall p: Pos :: Ptr(r, p) == Ptr(s, p)) && (forall x: nat :: Used(r, x) == Used(s, x))
  {
    hide Inv, Ptr, Bmap, Used, Splice, FileByte, Bytes, StoreChunk, Grow;
    BlockMapped(s, ino, n);
    ChunkKeepsMap(s, ino, n, off, chunk);
    GrowKeeps(StoreChunk(s, Bmap(s, ino, n), off, chunk), ino, end);
  }

  lemma BytesPrefix(data: seq<nat>, c: nat)
    requires Bytes(data) && c <= |data|
    ensures Bytes(data[..c])
  {
  }

  lemma BlockMapped(s: Fs, ino: nat, n: nat)
    requires Inv(s) && Bmap(s, ino, n) != 0
    ensures Bmap(s, ino, n) < |s.blocks| && |s.blocks[Bmap(s, ino, n)]| == BLOCK_SIZE
  {
    assert Used(s, Ptr(s, LeafPos(ino, n)));
  }

  lemma RoundBytes(s1: Fs, ino: nat, pos: nat, data: seq<nat>, ino': nat, q: nat)
    requires Inv(s1) && ino < |s1.inodes| && pos < MAX_BYTES && data != [] && Bytes(data) && q < MAX_BYTES
    requires pos / BLOCK_SIZE < MAX_BLOCKS && Bmap(s1, ino, pos / BLOCK_SIZE) != 0
    requires var z := Bmap(s1, ino, pos / BLOCK_SIZE); z < |s1.blocks| && |s1.blocks[z]| == BLOCK_SIZE
    ensures var r := WriteRound(s1, ino, Bmap(s1, ino, pos / BLOCK_SIZE), pos, data); var c := ChunkLen(pos, |data|);
            FileByte(r, ino', q) == if ino' == ino && pos <= q < pos + c then data[q - pos] else FileByte(s1, ino', q)
  {
    hide FileByte, Inv, Bmap, Used, Ptr, StoreChunk, Grow;
    var n, c, off := pos / BLOCK_SIZE, ChunkLen(pos, |data|), pos % BLOCK_SIZE;
    assert pos == n * BLOCK_SIZE + off;
    var s' := StoreChunk(s1, Bmap(s1, ino, n), off, data[..c]);
    ChunkKeepsMap(s1, ino, n, off, data[..c]);
    GrowKeeps(s', ino, pos + c);
    ChunkBytes(s1, ino, n, off, data[..c], ino', q);
  }

  /** What one round, allocation included, does to the bytes of all files. */
  lemma RoundEffect(s: Fs, ino: nat, pos: nat, data: seq<nat>)
    requires Inv(s) && ino < |s.inodes| && pos + |data| <= MAX_BYTES && data != [] && Bytes(data)
    ensures var (s1, z) := CreateBlock(s, ino, pos / BLOCK_SIZE);
            && Inv(s1) && |s1.inodes| == |s.inodes| && (z != 0 ==> z < |s1.blocks| && |s1.blocks[z]| == BLOCK_SIZE)
            && (z == 0 ==> Full(s1))
            && (z != 0 ==> var s2 := WriteRound(s1, ino, z, pos, data); var c := ChunkLen(pos, |data|);
                 Inv(s2) && 0 < c && Wrote(s, s2, ino, pos, data, c))
  {
    RoundAlloc(s, ino, pos);
    var (s1, z) := CreateBlock(s, ino, pos / BLOCK_SIZE);
    if z != 0 {
      RoundSound(s1, ino, pos, data);
      var s2 := WriteRound(s1, ino, z, pos, data);
      hide Inv, FileByte, Bmap, CreateBlock;
      forall ino': nat, q: nat | q < MAX_BYTES
        ensures FileByte(s2, ino', q) == if ino' == ino && pos <= q < pos + ChunkLen(pos, |data|) then data[q - pos]
                  else FileByte(s, ino', q)
      {
        RoundBytes(s1, ino, pos, data, ino', q);
        CreateKeepsBytes(s, ino, pos / BLOCK_SIZE, ino', q);
      }
    }
  }

  /** file_write of data at pos, block by block: the file system and the number of bytes written. */
  ghost function FileWrite(s: Fs, ino: nat, pos: nat, data: seq<nat>): (r: (Fs, nat))
    requires Inv(s) && ino < |s.inodes| && pos + |data| <= MAX_BYTES && Bytes(data)
    ensures r.1 <= |data|
    decreases |data|
  {
    if data == [] then (s, 0)
    else
      RoundEffect(s, ino, pos, data);
      var (s1, z) := CreateBlock(s, ino, pos / BLOCK_SIZE);
      if z == 0 then (s1, 0)
      else
        var c := ChunkLen(pos, |data|);
        var (s3, n) := FileWrite(WriteRound(s1, ino, z, pos, data), ino, pos + c, data[c..]);
        (s3, c + n)
  }

  /** file_write, unfolded once. */
  lemma FileWriteStep(s: Fs, ino: nat, pos: nat, data: seq<nat>, s1: Fs, z: nat)
    requires Inv(s) && ino < |s.inodes| && pos + |data| <= MAX_BYTES && Bytes(data) && data != []
    requires pos / BLOCK_SIZE < MAX_BLOCKS && CreateBlock(s, ino, pos / BLOCK_SIZE) == (s1, z)
    ensures var c := ChunkLen(pos, |data|); 0 < c <= |data| && Bytes(data[c..])
    ensures z == 0 ==> FileWrite(s, ino, pos, data) == (s1, 0)
    ensures z != 0 ==>
      && z < |s1.blocks| && |s1.blocks[z]| == BLOCK_SIZE && ino < |s1.inodes|
      && var s2, c := WriteRound(s1, ino, z, pos, data), ChunkLen(pos, |data|);
      && Inv(s2) && ino < |s2.inodes|
      && FileWrite(s, ino, pos, data).0 == FileWrite(s2, ino, pos + c, data[c..]).0
      && FileWrite(s, ino, pos, data).1 == c + FileWrite(s2, ino, pos + c, data[c..]).1
  {
    RoundEffect(s, ino, pos, data);
    hide Inv, CreateBlock, WriteRound, Wrote, Full;
  }

  lemma BlockWanted(s: Fs, ino: nat, pos: nat) returns (s1: Fs, z: nat)
    requires Inv(s) && ino < |s.inodes| && pos < MAX_BYTES
    ensures pos / BLOCK_SIZE < MAX_BLOCKS && s.first >= 1
    ensures forall i :: 0 <= i < |s.inodes| ==> |s.inodes[i].zones| == 9
    ensures CreateBlock(s, ino, pos / BLOCK_SIZE) == (s1, z)
  {
    s1, z := CreateBlock(s, ino, pos / BLOCK_SIZE).0, CreateBlock(s, ino, pos / BLOCK_SIZE).1;
    hide CreateBlock;
  }

  /** The same, with what the round does: the state r after it, whether it was the last, and the bytes
      it covered. */
  lemma FirstWrite(s: Fs, ino: nat, pos: nat, data: seq<nat>) returns (r: Fs, last: bool, c: nat)
    requires Inv(s) && ino < |s.inodes| && pos + |data| <= MAX_BYTES && data != [] && Bytes(data)
    ensures Inv(r) && ino < |r.inodes| && 0 < c <= |data| && Bytes(data[c..])
    ensures Wrote(s, r, ino, pos, data, if last then 0 else c) && (last ==> Full(r))
    ensures FileWrite(s, ino, pos, data).0 == if last then r else FileWrite(r, ino, pos + c, data[c..]).0
    ensures FileWrite(s, ino, pos, data).1 == if last then 0 else c + FileWrite(r, ino, pos + c, data[c..]).1
  {
    hide Inv, CreateBlock, WriteRound, Wrote, Full, FileWrite, Bytes;
    var s1, z := BlockWanted(s, ino, pos);
    FileWriteStep(s, ino, pos, data, s1, z);
    RoundEffect(s, ino, pos, data);
    c := ChunkLen(pos, |data|);
    last := z == 0;
    r := if z == 0 then s1 else WriteRound(s1, ino, z, pos, data);
    if last { NothingWritten(s, ino, pos, data); }
  }

  lemma FileWriteDone(s: Fs, ino: nat, pos: nat)
    requires Inv(s) && ino < |s.inodes| && pos <= MAX_BYTES
    ensures FileWrite(s, ino, pos, []) == (s, 0)
  {
  }

  /** A write of any length at any position replaces exactly the bytes it reports written, in this file
      and nowhere else; it stops short only when the disk is full; the size grows to cover it. */
  lemma {:induction false} WriteEffect(s: Fs, ino: nat, pos: nat, data: seq<nat>)
    requires Inv(s) && ino < |s.inodes| && pos + |data| <= MAX_BYTES && Bytes(data)
    ensures var (r, n) := FileWrite(s, ino, pos, data);
            Inv(r) && Wrote(s, r, ino, pos, data, n) && (n < |data| ==> Full(r))
    decreases |data|
  {
    hide Inv, Full, FileWrite, Bytes, Wrote;
    if data == [] {
      FileWriteDone(s, ino, pos);
      NoneWritten(s, ino, pos);
    } else {
      var r, last, c := FirstWrite(s, ino, pos, data);
      if !last {
        WriteEffect(r, ino, pos + c, data[c..]);
        var (r', n) := FileWrite(r, ino, pos + c, data[c..]);
        WroteThen(s, r, r', ino, pos, data, c, n);
      }
    }
  }

  lemma NoneWritten(s: Fs, ino: nat, pos: nat)
    ensures Wrote(s, s, ino, pos, [], 0)
  {
  }

  lemma NothingWritten(s: Fs, ino: nat, pos: nat, data: seq<nat>)
    requires Inv(s) && ino < |s.inodes| && pos < MAX_BYTES && CreateBlock(s, ino, pos / BLOCK_SIZE).1 == 0
    ensures var s1 := CreateBlock(s, ino, pos / BLOCK_SIZE).0; Inv(s1) && Wrote(s, s1, ino, pos, data, 0)
  {
    var n := pos / BLOCK_SIZE;
    CreateBlockEffect(s, ino, n);
    hide FileByte;
    forall ino': nat, q: nat | q < MAX_BYTES
      ensures FileByte(CreateBlock(s, ino, n).0, ino', q) == FileByte(s, ino', q)
    {
      CreateKeepsBytes(s, ino, n, ino', q);
    }
  }

  // ---------------------------------------------------------------- file_read

  /** The count bytes of a file from pos on. */
  function ReadBytes(s: Fs, ino: nat, pos: nat, count: nat): (r: seq<nat>)
    ensures |r| == count && forall i :: 0 <= i < count ==> r[i] == FileByte(s, ino, pos + i)
  {
    seq<nat>(count, i requires 0 <= i => FileByte(s, ino, pos + i))
  }

  /** Read after write, on any range. */
  lemma ReadAfterWrite(s: Fs, ino: nat, pos: nat, data: seq<nat>)
    requires Inv(s) && ino < |s.inodes| && pos + |data| <= MAX_BYTES && Bytes(data)
    ensures var (r, n) := FileWrite(s, ino, pos, data); ReadBytes(r, ino, pos, n) == data[..n]
  {
    WriteEffect(s, ino, pos, data);
  }

  /** Nothing but zeros beyond the end of any file. */
  ghost predicate TailZero(s: Fs) {
    forall ino: nat, q: nat :: ino < |s.inodes| && s.inodes[ino].size <= q < MAX_BYTES ==> FileByte(s, ino, q) == 0
  }

  /** So a write beyond the end leaves a gap that reads as zeros. */
  lemma WriteKeepsTail(s: Fs, ino: nat, pos: nat, data: seq<nat>)
    requires Inv(s) && ino < |s.inodes| && pos + |data| <= MAX_BYTES && Bytes(data) && TailZero(s)
    ensures TailZero(FileWrite(s, ino, pos, data).0)
    ensures forall q: nat :: s.inodes[ino].size <= q < pos ==> FileByte(FileWrite(s, ino, pos, data).0, ino, q) == 0
  {
    WriteEffect(s, ino, pos, data);
    var (r, n) := FileWrite(s, ino, pos, data);
    hide FileByte, FileWrite, Inv;
    forall i: nat, q: nat | i < |r.inodes| && r.inodes[i].size <= q < MAX_BYTES ensures FileByte(r, i, q) == 0 {
      assert s.inodes[i].size <= q;
    }
  }
}
