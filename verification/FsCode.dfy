/** `bitmap.c`, `inode.c`, `truncate.c` and `file_dev.c` as they change the bitmap, the blocks and the
    inodes in place. Each routine makes exactly the transition that Zones, ZoneTree, FileBytes or
    Truncate define. */
module FsCode {
  import opened Basics
  import opened Zones
  import opened ZoneTree
  import opened FileBytes
  import opened Truncate

  class FileSystem {
    const first: nat                 // s_firstdatazone
    const nzones: nat                // s_nzones
    const zmap: array<bool>          // the loaded bitmap blocks, end to end
    const blocks: array<Block>
    const inodes: array<Inode>
    var busy: set<nat>               // zones whose buffer another process is holding

    ghost function S(): Fs
      reads this, zmap, blocks, inodes
    {
      Fs(first, nzones, zmap[..], blocks[..], inodes[..], busy)
    }

    ghost predicate Ok()
      reads this, zmap, blocks, inodes
    {
      zmap.Length % BITS == 0 && zmap.Length <= MAP_SLOTS * BITS && Inv(S())
    }

    // -------------------------------------------------------------- stores

    method SetBit(j: nat, v: bool)
      requires j < zmap.Length
      modifies zmap
      ensures S() == old(S()).(zmap := old(zmap[..])[j := v])
    {
      zmap[j] := v;
    }

    method PutBlock(z: nat, b: Block)
      requires z < blocks.Length
      modifies blocks
      ensures S() == old(S()).(blocks := old(blocks[..])[z := b])
    {
      blocks[z] := b;
    }

    method PutInode(ino: nat, v: Inode)
      requires ino < inodes.Length
      modifies inodes
      ensures S() == old(S()).(inodes := old(inodes[..])[ino := v])
    {
      inodes[ino] := v;
    }

    // -------------------------------------------------------------- bitmap.c

    /** find_first_zero of bitmap block i: the bit's number within the block, BITS if all are set. */
    method FindFirstZero(i: nat) returns (j: nat)
      requires (i + 1) * BITS <= zmap.Length
      ensures j <= BITS && (j < BITS ==> !zmap[i * BITS + j])
      ensures forall k :: i * BITS <= k < i * BITS + j ==> zmap[k]
    {
      j := 0;
      while j < BITS && zmap[i * BITS + j]
        invariant 0 <= j <= BITS && forall k :: i * BITS <= k < i * BITS + j ==> zmap[k]
      {
        j := j + 1;
      }
    }

    /** new_block. */
    method AllocZone() returns (z: nat)
      requires Ok()
      modifies zmap, blocks
      ensures Ok() && (S(), z) == NewBlock(old(S()))
    {
      NewBlockEffect(S());
      var i, j := 0, BITS;
      while i < MAP_SLOTS
        invariant 0 <= i <= MAP_SLOTS && j == BITS && S() == old(S())
        invariant forall k :: 0 <= k < i * BITS && k < zmap.Length ==> zmap[k]
      {
        if i * BITS < zmap.Length {
          j := FindFirstZero(i);
          if j < BITS { break; }
        }
        i := i + 1;
      }
      if i >= MAP_SLOTS || j >= BITS {
        NoZeroBit(zmap[..]);
        return 0;
      }
      z := TakeBit(i * BITS + j);
    }

    /** What new_block does with the first clear bit. */
    method TakeBit(j: nat) returns (z: nat)
      requires first >= 1 && nzones <= blocks.Length
      requires j < zmap.Length && !zmap[j] && forall k :: 0 <= k < j ==> zmap[k]
      modifies zmap, blocks
      ensures (S(), z) == NewBlock(old(S()))
    {
      FirstZeroIs(zmap[..], j);
      SetBit(j, true);
      z := j + first - 1;
      if z >= nzones { return 0; }
      PutBlock(z, ZeroBlock());
    }

    /** free_block: it panics outside the data zones or if the bit is clear already; if someone else
        holds the block's buffer it gives up without freeing. */
    method ReleaseZone(z: nat)
      requires Freeable(S(), z)
      modifies zmap
      ensures S() == FreeBlock(old(S()), z)
    {
      if z in busy { return; }
      SetBit(z - first + 1, false);
    }

    // -------------------------------------------------------------- inode.c

    /** The zone in slot k of an inode, allocated on request: the first step of each case of _bmap. */
    method SlotZone(ino: nat, k: nat, create: bool) returns (z: nat)
      requires Ok() && ino < inodes.Length && k < 9
      modifies zmap, blocks, inodes
      ensures Ok()
      ensures (S(), z) == if create then AllocAt(old(S()), Slot(ino, k)) else (old(S()), Ptr(old(S()), Slot(ino, k)))
    {
      AllocEffect(S(), Slot(ino, k));
      if create && inodes[ino].zones[k] == 0 {
        ghost var s := S();
        z := AllocZone();
        PutInode(ino, inodes[ino].(zones := inodes[ino].zones[k := z]));
        if z == 0 {
          assert s.inodes[ino].zones[k := 0] == s.inodes[ino].zones;
          assert inodes[..] == s.inodes;
        }
      }
      z := inodes[ino].zones[k];
    }

    /** Entry i of indirect block b, which is named at place c, allocated on request. */
    method EntryZone(b: nat, i: nat, create: bool, ghost p: Pos) returns (z: nat)
      requires Ok() && Exists(S(), p) && !p.Slot? && Container(S(), p) == b && Index(p) == i
      modifies zmap, blocks
      ensures Ok()
      ensures (S(), z) == if create then AllocAt(old(S()), p) else (old(S()), Ptr(old(S()), p))
    {
      ghost var s := S();
      ContainerUsed(s, p);
      AllocEffect(s, p);
      NewBlockEffect(s);
      if NewBlock(s).1 != 0 { SameContainer(s, NewBlock(s).0, p); }
      z := Word(blocks[b], i);
      if create && z == 0 {
        z := AllocZone();
        if z != 0 { PutBlock(b, SetWord(blocks[b], i, z)); }
      }
    }

    /** _bmap. */
    method MapBlock(ino: nat, n: nat, create: bool) returns (z: nat)
      requires Ok() && ino < inodes.Length && n < MAX_BLOCKS
      modifies zmap, blocks, inodes
      ensures Ok()
      ensures (S(), z) == if create then CreateBlock(old(S()), ino, n) else (old(S()), Bmap(old(S()), ino, n))
    {
      hide Inv, AllocAt;
      if n < NDIRECT {
        z := SlotZone(ino, n, create);
        return;
      }
      var m := n - NDIRECT;
      if m < PTRS {
        z := SlotZone(ino, 7, create);
        if z == 0 { return; }
        SlotFilled(old(S()), ino, 7, create);
        z := EntryZone(z, m, create, Ind(ino, m));
        return;
      }
      m := m - PTRS;
      LeafIndex(n);
      z := SlotZone(ino, 8, create);
      if z == 0 {
        assert !create ==> Ptr(old(S()), Dind(ino, m / PTRS)) == 0;
        return;
      }
      SlotFilled(old(S()), ino, 8, create);
      ghost var s := S();
      z := EntryZone(z, m / PTRS, create, Dind(ino, m / PTRS));
      if z == 0 {
        assert !create ==> Ptr(s, Leaf(ino, m / PTRS, m % PTRS)) == Entry(s, Ptr(s, Dind(ino, m / PTRS)), m % PTRS);
        return;
      }
      EntryFilled(s, Dind(ino, m / PTRS), create);
      z := EntryZone(z, m % PTRS, create, Leaf(ino, m / PTRS, m % PTRS));
    }

    // -------------------------------------------------------------- file_dev.c

    /** file_read of count bytes from pos: what it copies out, a hole reading as zeros. */
    method ReadFile(ino: nat, pos: nat, count: nat) returns (buf: seq<nat>)
      requires Ok() && ino < inodes.Length && pos + count <= MAX_BYTES
      modifies zmap, blocks, inodes
      ensures S() == old(S()) && buf == ReadBytes(old(S()), ino, pos, count)
    {
      ghost var s := S();
      hide Inv, Bmap;
      var p, left := pos, count;
      buf := [];
      while left > 0
        invariant 0 <= left <= count && p == pos + count - left && S() == s && Ok()
        invariant buf == ReadBytes(s, ino, pos, count - left)
      {
        assert p / BLOCK_SIZE < MAX_BLOCKS;
        var z := MapBlock(ino, p / BLOCK_SIZE, false);
        var chars := Min(BLOCK_SIZE - p % BLOCK_SIZE, left);
        ZoneInBlocks(s, ino, p / BLOCK_SIZE);
        ChunkRead(s, ino, p, chars);
        if z != 0 {
          buf := buf + blocks[z][p % BLOCK_SIZE..p % BLOCK_SIZE + chars];
        } else {
          buf := buf + seq(chars, _ => 0);
        }
        ReadConcat(s, ino, pos, count - left, chars);
        p := p + chars;
        left := left - chars;
      }
    }

    /** file_write of data at the file's end (append) or at f_pos: the number of bytes written, and f_pos
        afterwards. */
    method WriteFile(ino: nat, append: bool, fpos: nat, data: seq<nat>) returns (i: nat, newPos: nat)
      requires Ok() && ino < inodes.Length && Bytes(data)
      requires (if append then inodes[ino].size else fpos) + |data| <= MAX_BYTES
      modifies zmap, blocks, inodes
      ensures Ok()
      ensures S() == FileWrite(old(S()), ino, if append then old(inodes[ino].size) else fpos, data).0
      ensures i == FileWrite(old(S()), ino, if append then old(inodes[ino].size) else fpos, data).1
      ensures newPos == if append then fpos else fpos + i
    {
      var pos := if append then inodes[ino].size else fpos;
      i := WriteAt(ino, pos, data);
      pos := pos + i;
      newPos := if append then fpos else pos;
    }

    /** The loop of file_write. */
    method WriteAt(ino: nat, start: nat, data: seq<nat>) returns (i: nat)
      requires Ok() && ino < inodes.Length && Bytes(data) && start + |data| <= MAX_BYTES
      modifies zmap, blocks, inodes
      ensures Ok()
      ensures S() == FileWrite(old(S()), ino, start, data).0
      ensures i == FileWrite(old(S()), ino, start, data).1
    {
      hide Inv, FileWrite;
      i := 0;
      while i < |data|
        invariant i <= |data| && Ok()
        invariant FileWrite(old(S()), ino, start, data).0 == FileWrite(S(), ino, start + i, data[i..]).0
        invariant FileWrite(old(S()), ino, start, data).1 == i + FileWrite(S(), ino, start + i, data[i..]).1
      {
        var c := WriteOnce(ino, start + i, data[i..]);
        if c == 0 { return; }
        assert data[i..][c..] == data[i + c..];
        i := i + c;
      }
      assert data[i..] == [];
      FileWriteDone(S(), ino, start + i);
    }

    /** One round of file_write: the number of bytes it writes, 0 when no block can be had. */
    method WriteOnce(ino: nat, pos: nat, rest: seq<nat>) returns (c: nat)
      requires Ok() && ino < inodes.Length && Bytes(rest) && rest != [] && pos + |rest| <= MAX_BYTES
      modifies zmap, blocks, inodes
      ensures Ok() && c <= |rest|
      ensures inodes.Length == |S().inodes|
      ensures FileWrite(old(S()), ino, pos, rest).0 == if c == 0 then S() else FileWrite(S(), ino, pos + c, rest[c..]).0
      ensures FileWrite(old(S()), ino, pos, rest).1 ==
                if c == 0 then 0 else c + FileWrite(S(), ino, pos + c, rest[c..]).1
    {
      hide Inv, CreateBlock, Bytes, FileWrite, WriteRound;
      ghost var s1, z1 := BlockWanted(S(), ino, pos);
      FileWriteStep(S(), ino, pos, rest, s1, z1);
      var z := MapBlock(ino, pos / BLOCK_SIZE, true);
      if z == 0 { return 0; }
      c := Min(BLOCK_SIZE - pos % BLOCK_SIZE, |rest|);
      WriteChunk(ino, z, pos, rest);
    }

    /** The bytes of one round, and i_size. */
    method WriteChunk(ino: nat, z: nat, pos: nat, rest: seq<nat>)
      requires ino < inodes.Length && z < blocks.Length && |blocks[z]| == BLOCK_SIZE
      modifies blocks, inodes
      ensures S() == WriteRound(old(S()), ino, z, pos, rest)
    {
      var c := ChunkLen(pos, |rest|);
      PutBlock(z, Splice(blocks[z], pos % BLOCK_SIZE, rest[..c]));
      ghost var s := S();
      if pos + c > inodes[ino].size {
        PutInode(ino, inodes[ino].(size := pos + c));
      } else {
        assert s.inodes[ino := s.inodes[ino].(size := s.inodes[ino].size)] == s.inodes;
      }
    }

    // -------------------------------------------------------------- truncate.c

    /** free_ind. The block's entries are read while it is being held; the block itself goes last. */
    method FreeInd(z: nat)
      requires Sized(S()) && (z != 0 ==> z < blocks.Length) && Releasable(S(), IndZones(S(), z))
      modifies zmap
      ensures S() == FreeZones(old(S()), IndZones(old(S()), z))
    {
      hide Sized, Releasable, Used, FreeZones, Freeable, IndZones, Word;
      ghost var s, zs := S(), IndZones(S(), z);
      IndZonesAre(s, z);
      FreeNothing(s, zs[..0]);
      if z == 0 { return; }
      var b := blocks[z];
      var i := 0;
      while i < PTRS
        invariant 0 <= i <= PTRS && S() == FreeZones(s, zs[..i])
      {
        ZoneStep(s, zs, i);
        if Word(b, i) != 0 { ReleaseZone(Word(b, i)); }
        i := i + 1;
      }
      ZoneStep(s, zs, PTRS);
      assert zs[..PTRS + 1] == zs;
      ReleaseZone(z);
    }

    /** free_dind. */
    method FreeDind(z: nat)
      requires Sized(S()) && (z != 0 ==> z < blocks.Length) && Releasable(S(), DindZones(S(), z))
      requires z != 0 ==> forall i :: 0 <= i < PTRS ==> Word(blocks[z], i) < blocks.Length
      modifies zmap
      ensures S() == FreeZones(old(S()), DindZones(old(S()), z))
    {
      if z == 0 { return; }
      ghost var s, w := S(), Words(blocks[z]);
      var b := blocks[z];
      ReleasableRest(s, IndLists(s, w), [z]);
      FreeConcat(s, IndLists(s, w), [z]);
      var i := 0;
      while i < PTRS
        invariant 0 <= i <= PTRS && S() == FreeZones(s, IndLists(s, w[..i])) && OnlyBits(s, S()) && Sized(S())
      {
        NextList(s, w, i);
        SameIndZones(s, S(), w[i]);
        FreeInd(Word(b, i));
        i := i + 1;
      }
      assert w[..PTRS] == w;
      NextFreeable(S(), [z], 0);
      ReleaseZone(z);
    }

    /** truncate. */
    method TruncateInode(ino: nat)
      requires Inv(S()) && ino < inodes.Length && |inodes[ino].zones| == 9
      modifies zmap, inodes
      ensures S() == TruncateFile(old(S()), ino)
    {
      hide Inv, TreeZones, FreeZones;
      if inodes[ino].kind == Other { return; }
      FreeTree(ino);
      PutInode(ino, inodes[ino].(zones := inodes[ino].zones[7 := 0][8 := 0], size := 0));
      assert inodes[ino].zones == NoZones();
    }

    /** The calls of truncate that free the tree. */
    method FreeTree(ino: nat)
      requires Inv(S()) && ino < inodes.Length && |inodes[ino].zones| == 9
      modifies zmap, inodes
      ensures S() == FreeZones(old(S()), TreeZones(old(S()), ino)).(inodes := old(inodes[..])[ino := inodes[ino]])
      ensures inodes[ino] == old(inodes[ino]).(zones := inodes[ino].zones)
      ensures inodes[ino].zones == [0, 0, 0, 0, 0, 0, 0] + old(inodes[ino].zones)[7..]
    {
      hide Inv, Releasable, Used, IndZones, DindZones, FreeZones, TreeZones;
      ghost var s := S();
      ghost var zones := inodes[ino].zones;
      TreeParts(s, ino);
      FreeDirect(ino);
      ghost var s1 := FreeZones(s, zones[..7]);
      FreeCommutes(s1, inodes[..], IndZones(s, zones[7]));
      SameLists(s, S(), zones[7], zones[8]);
      FreeInd(inodes[ino].zones[7]);
      ghost var s2 := FreeZones(s1, IndZones(s, zones[7]));
      FreeCommutes(s2, inodes[..], DindZones(s, zones[8]));
      SameLists(s, S(), zones[7], zones[8]);
      FreeDind(inodes[ino].zones[8]);
    }

    /** One turn of the first loop of truncate. */
    method DropSlot(ino: nat, i: nat)
      requires ino < inodes.Length && i < |inodes[ino].zones|
                 && (inodes[ino].zones[i] != 0 ==> Freeable(S(), inodes[ino].zones[i]))
      modifies zmap, inodes
      ensures inodes[ino] == old(inodes[ino]).(zones := old(inodes[ino]).zones[i := 0])
      ensures S() == FreeZone(old(S()), old(inodes[ino]).zones[i]).(inodes := old(inodes[..])[ino := inodes[ino]])
    {
      hide Used;
      if inodes[ino].zones[i] != 0 {
        ReleaseZone(inodes[ino].zones[i]);
        PutInode(ino, inodes[ino].(zones := inodes[ino].zones[i := 0]));
      } else {
        assert inodes[ino].zones[i := 0] == inodes[ino].zones && inodes[..][ino := inodes[ino]] == inodes[..];
      }
    }

    /** The first loop of truncate: the direct zones. */
    method FreeDirect(ino: nat)
      requires Sized(S()) && ino < inodes.Length && |inodes[ino].zones| == 9
      requires Releasable(S(), inodes[ino].zones[..7])
      modifies zmap, inodes
      ensures S() == FreeZones(old(S()), old(inodes[ino].zones)[..7])
                     .(inodes := old(inodes[..])[ino := old(inodes[ino]).(zones := inodes[ino].zones)])
      ensures inodes[ino].zones == [0, 0, 0, 0, 0, 0, 0] + old(inodes[ino].zones)[7..]
    {
      hide Sized, Releasable, FreeZone, FreeZones, Freeable;
      ghost var s, zs := S(), inodes[ino].zones;
      FreeNothing(s, zs[..0]);
      var i := 0;
      while i < 7
        invariant 0 <= i <= 7 && |inodes[ino].zones| == 9
        invariant forall k :: 0 <= k < 9 ==> inodes[ino].zones[k] == if k < i then 0 else zs[k]
        invariant S() == FreeZones(s, zs[..i]).(inodes := s.inodes[ino := s.inodes[ino].(zones := inodes[ino].zones)])
      {
        DirectStep(s, inodes[..], zs, i);
        DropSlot(ino, i);
        i := i + 1;
      }
    }
  }

  lemma IndZonesAre(s: Fs, z: nat)
    requires z != 0 ==> z < |s.blocks|
    ensures z == 0 ==> IndZones(s, z) == []
    ensures z != 0 ==> |IndZones(s, z)| == PTRS + 1 && IndZones(s, z)[PTRS] == z
                       && forall i :: 0 <= i < PTRS ==> IndZones(s, z)[i] == Word(s.blocks[z], i)
  {
  }

  lemma ZoneStep(s: Fs, zs: seq<nat>, i: nat)
    requires i < |zs| && Sized(s) && Releasable(s, zs)
    ensures zs[i] != 0 ==> Freeable(FreeZones(s, zs[..i]), zs[i])
    ensures FreeZone(FreeZones(s, zs[..i]), zs[i]) == FreeZones(s, zs[..i + 1])
  {
    assert zs[..i + 1][..i] == zs[..i];
    if zs[i] != 0 { NextFreeable(s, zs, i); }
  }

  lemma DirectStep(s: Fs, x: seq<Inode>, zs: seq<nat>, i: nat)
    requires i < 7 <= |zs| && Sized(s) && Releasable(s, zs[..7])
    ensures var r := FreeZones(s, zs[..i]).(inodes := x);
            && (zs[i] != 0 ==> Freeable(r, zs[i]))
            && FreeZone(r, zs[i]) == FreeZones(s, zs[..i + 1]).(inodes := x)
  {
    assert zs[..7][..i] == zs[..i] && zs[..7][..i + 1] == zs[..i + 1];
    ZoneStep(s, zs[..7], i);
  }

  lemma NoZeroBit(m: seq<bool>)
    requires forall k :: 0 <= k < |m| ==> m[k]
    ensures FirstZero(m, 0) == |m|
  {
  }

  lemma FirstZeroIs(m: seq<bool>, j: nat)
    requires j < |m| && !m[j] && forall k :: 0 <= k < j ==> m[k]
    ensures FirstZero(m, 0) == j
  {
  }

  /** After SlotZone the slot holds the zone returned. */
  lemma SlotFilled(s: Fs, ino: nat, k: nat, create: bool)
    requires Inv(s) && ino < |s.inodes| && k < 9
    ensures var (r, z) := if create then AllocAt(s, Slot(ino, k)) else (s, Ptr(s, Slot(ino, k)));
            Ptr(r, Slot(ino, k)) == z && |r.inodes| == |s.inodes|
  {
    AllocEffect(s, Slot(ino, k));
  }

  lemma EntryFilled(s: Fs, p: Pos, create: bool)
    requires Inv(s) && Exists(s, p)
    ensures var (r, z) := if create then AllocAt(s, p) else (s, Ptr(s, p)); Ptr(r, p) == z && |r.inodes| == |s.inodes|
  {
    AllocEffect(s, p);
  }

  lemma ZoneInBlocks(s: Fs, ino: nat, n: nat)
    requires Inv(s)
    ensures Bmap(s, ino, n) != 0 ==> Bmap(s, ino, n) < |s.blocks| && |s.blocks[Bmap(s, ino, n)]| == BLOCK_SIZE
  {
    if Bmap(s, ino, n) != 0 { assert Used(s, Bmap(s, ino, n)); }
  }

  /** One chunk of a read stays inside one block. */
  lemma ChunkRead(s: Fs, ino: nat, p: nat, chars: nat)
    requires Inv(s) && p % BLOCK_SIZE + chars <= BLOCK_SIZE
    ensures var z := Bmap(s, ino, p / BLOCK_SIZE);
            && (z != 0 ==> z < |s.blocks| && |s.blocks[z]| == BLOCK_SIZE
                           && s.blocks[z][p % BLOCK_SIZE..p % BLOCK_SIZE + chars] == ReadBytes(s, ino, p, chars))
            && (z == 0 ==> ReadBytes(s, ino, p, chars) == seq(chars, _ => 0))
  {
    ZoneInBlocks(s, ino, p / BLOCK_SIZE);
    var z := Bmap(s, ino, p / BLOCK_SIZE);
    var r := ReadBytes(s, ino, p, chars);
    forall i | 0 <= i < chars ensures r[i] == if z != 0 then s.blocks[z][p % BLOCK_SIZE + i] else 0 {
      assert (p + i) / BLOCK_SIZE == p / BLOCK_SIZE && (p + i) % BLOCK_SIZE == p % BLOCK_SIZE + i;
    }
  }

  lemma ReadConcat(s: Fs, ino: nat, pos: nat, a: nat, b: nat)
    ensures ReadBytes(s, ino, pos, a) + ReadBytes(s, ino, pos + a, b) == ReadBytes(s, ino, pos, a + b)
  {
  }

  lemma {:induction false} ListsPrefix(s: Fs, w: seq<nat>, i: nat)
    requires i <= |w|
    ensures exists rest: seq<nat> :: IndLists(s, w) == IndLists(s, w[..i]) + rest
    decreases |w|
  {
    hide IndLists, IndZones;
    if i == |w| {
      assert w[..i] == w && IndLists(s, w) == IndLists(s, w[..i]) + [];
    } else {
      var n := |w| - 1;
      ListsPrefix(s, w[..n], i);
      var rest :| IndLists(s, w[..n]) == IndLists(s, w[..n][..i]) + rest;
      assert w[..n][..i] == w[..i] && w[..n + 1] == w;
      ListsStep(s, w, n + 1);
      assert IndLists(s, w) == IndLists(s, w[..i]) + (rest + IndZones(s, w[n]));
    }
  }

  /** Before the i-th entry of a double-indirect block is released, its own list can be. */
  lemma NextList(s: Fs, w: seq<nat>, i: nat)
    requires Sized(s) && i < |w| && Releasable(s, IndLists(s, w))
    ensures Releasable(FreeZones(s, IndLists(s, w[..i])), IndZones(s, w[i]))
    ensures FreeZones(s, IndLists(s, w[..i + 1])) == FreeZones(FreeZones(s, IndLists(s, w[..i])), IndZones(s, w[i]))
    ensures OnlyBits(s, FreeZones(s, IndLists(s, w[..i + 1])))
  {
    ListsPrefix(s, w, i + 1);
    var rest :| IndLists(s, w) == IndLists(s, w[..i + 1]) + rest;
    assert w[..i + 1][..i] == w[..i];
    ReleasableRest(s, IndLists(s, w[..i + 1]), rest);
    FreedEffect(s, IndLists(s, w[..i + 1]));
    ReleasableRest(s, IndLists(s, w[..i]), IndZones(s, w[i]));
    FreeConcat(s, IndLists(s, w[..i]), IndZones(s, w[i]));
  }

  lemma SameIndZones(s: Fs, r: Fs, z: nat)
    requires r.blocks == s.blocks
    ensures IndZones(r, z) == IndZones(s, z)
  {
  }

  lemma {:induction false} SameIndLists(s: Fs, r: Fs, w: seq<nat>)
    requires r.blocks == s.blocks
    ensures IndLists(r, w) == IndLists(s, w)
  {
    if w != [] { SameIndLists(s, r, w[..|w| - 1]); }
  }

  lemma SameLists(s: Fs, r: Fs, a: nat, b: nat)
    requires r.blocks == s.blocks
    ensures IndZones(r, a) == IndZones(s, a) && DindZones(r, b) == DindZones(s, b)
  {
    if b != 0 && b < |s.blocks| { SameIndLists(s, r, Words(s.blocks[b])); }
  }

  /** Which zones are freed does not depend on the inodes. */
  lemma {:induction false} FreeCommutes(s: Fs, x: seq<Inode>, zs: seq<nat>)
    ensures FreeZones(s.(inodes := x), zs) == FreeZones(s, zs).(inodes := x)
    ensures Releasable(s.(inodes := x), zs) <==> Releasable(s, zs)
  {
    forall z: nat ensures Used(s.(inodes := x), z) == Used(s, z) {}
    if zs != [] { FreeCommutes(s, x, zs[..|zs| - 1]); }
  }

  /** The three parts of truncate can each be released when their turn comes. */
  lemma TreeParts(s: Fs, ino: nat)
    requires Inv(s) && ino < |s.inodes|
    ensures var z := s.inodes[ino].zones;
            var s1 := FreeZones(s, z[..7]);
            var s2 := FreeZones(s1, IndZones(s, z[7]));
            && Releasable(s, z[..7]) && Releasable(s1, IndZones(s, z[7])) && Releasable(s2, DindZones(s, z[8]))
            && Sized(s) && OnlyBits(s, s1) && OnlyBits(s, s2)
            && FreeZones(s, TreeZones(s, ino)) == FreeZones(s2, DindZones(s, z[8]))
            && (z[7] != 0 ==> z[7] < |s.blocks|)
            && (z[8] != 0 ==> z[8] < |s.blocks| && forall i :: 0 <= i < PTRS ==> Word(s.blocks[z[8]], i) < |s.blocks|)
  {
    TreeReleasable(s, ino);
    var z := s.inodes[ino].zones;
    var a, b, c := z[..7], IndZones(s, z[7]), DindZones(s, z[8]);
    ReleasableRest(s, a + b, c);
    ReleasableRest(s, a, b);
    FreedEffect(s, a);
    FreedEffect(s, a + b);
    FreeConcat(s, a, b);
    FreeConcat(s, a + b, c);
    if Ptr(s, Slot(ino, 7)) != 0 { assert Used(s, Ptr(s, Slot(ino, 7))); }
    if Ptr(s, Slot(ino, 8)) != 0 {
      assert Used(s, Ptr(s, Slot(ino, 8)));
      forall i: nat | i < PTRS ensures Word(s.blocks[z[8]], i) < |s.blocks| {
        assert Ptr(s, Dind(ino, i)) != 0 ==> Used(s, Ptr(s, Dind(ino, i)));
      }
    }
  }
}
