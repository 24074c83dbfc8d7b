/** The block map: `_bmap`, `bmap` and `create_block` of `fs/inode.c` as transitions, and the proof
    that creating a block is an update of one entry of one file's map. */
module ZoneTree {
  import opened Zones

  /** The place of block n of a file. */
  function LeafPos(ino: nat, n: nat): Pos {
    if n < NDIRECT then Slot(ino, n)
    else if n < NDIRECT + PTRS then Ind(ino, n - NDIRECT)
    else Leaf(ino, (n - NDIRECT - PTRS) / PTRS, (n - NDIRECT - PTRS) % PTRS)
  }

  /** bmap. */
  function Bmap(s: Fs, ino: nat, n: nat): nat {
    Ptr(s, LeafPos(ino, n))
  }

  lemma LeafPosInjective(ino: nat, n: nat, ino': nat, n': nat)
    requires LeafPos(ino, n) == LeafPos(ino', n')
    ensures ino == ino' && n == n'
  {
  }

  /** The zone at place p, allocated when there is none: the pattern that _bmap repeats. */
  function AllocAt(s: Fs, p: Pos): (Fs, nat)
    requires s.first >= 1
    requires p.Slot? ==> p.ino < |s.inodes| && p.k < |s.inodes[p.ino].zones|
  {
    if Ptr(s, p) != 0 then (s, Ptr(s, p))
    else
      var (s1, z) := NewBlock(s);
      if z == 0 || (!p.Slot? && Container(s1, p) >= |s1.blocks|) then (s1, 0) else (SetPtr(s1, p, z), z)
  }

  /** create_block. */
  function CreateBlock(s: Fs, ino: nat, n: nat): (Fs, nat)
    requires s.first >= 1 && ino < |s.inodes| && (forall i :: 0 <= i < |s.inodes| ==> |s.inodes[i].zones| == 9)
  {
    if n < NDIRECT then AllocAt(s, Slot(ino, n))
    else if n < NDIRECT + PTRS then
      var (s1, a) := AllocAt(s, Slot(ino, 7));
      if a == 0 then (s1, 0) else AllocAt(s1, Ind(ino, n - NDIRECT))
    else
      var m := n - NDIRECT - PTRS;
      var (s1, a) := AllocAt(s, Slot(ino, 8));
      if a == 0 then (s1, 0)
      else
        var (s2, b) := AllocAt(s1, Dind(ino, m / PTRS));
        if b == 0 then (s2, 0) else AllocAt(s2, Leaf(ino, m / PTRS, m % PTRS))
  }

  // ---------------------------------------------------------------- frames

  /** No place is kept in a block that has changed. */
  lemma PtrsKept(s: Fs, s': Fs)
    requires s'.inodes == s.inodes && |s'.blocks| == |s.blocks|
    requires forall p: Pos :: Container(s, p) != 0 && Container(s, p) < |s.blocks| ==>
               s'.blocks[Container(s, p)] == s.blocks[Container(s, p)]
    ensures forall p: Pos :: Ptr(s', p) == Ptr(s, p)
  {
    forall p: Pos ensures Ptr(s', p) == Ptr(s, p) {
      match p
      case Slot(_, _) =>
      case Ind(ino, i) => assert Container(s, p) == Ptr(s, Slot(ino, 7)) == Ptr(s', Slot(ino, 7));
      case Dind(ino, i) => assert Container(s, p) == Ptr(s, Slot(ino, 8)) == Ptr(s', Slot(ino, 8));
      case Leaf(ino, i, j) =>
        assert Container(s, Dind(ino, i)) == Ptr(s, Slot(ino, 8)) == Ptr(s', Slot(ino, 8));
        assert Container(s, p) == Ptr(s, Dind(ino, i)) == Ptr(s', Dind(ino, i));
    }
  }

  /** Only the bitmap and block contents may change here; sizes and names stay. */
  ghost predicate SameShape(s: Fs, s': Fs) {
    && s'.first == s.first && s'.nzones == s.nzones && s'.busy == s.busy
    && |s'.zmap| == |s.zmap| && |s'.blocks| == |s.blocks| && |s'.inodes| == |s.inodes|
    && forall i :: 0 <= i < |s.inodes| ==> s'.inodes[i] == s.inodes[i].(zones := s'.inodes[i].zones)
  }

  ghost predicate Full(s: Fs) {
    forall z: nat :: Data(s, z) ==> Used(s, z)
  }

  /** new_block hands out the lowest free zone, zero-filled; it fails only on a full disk, and even if
      it then sets a bit that stands for no zone, no zone changes state. */
  lemma NewBlockEffect(s: Fs)
    requires Inv(s)
    ensures var (s', z) := NewBlock(s);
            && Inv(s') && SameShape(s, s') && s'.inodes == s.inodes
            && (forall p: Pos :: Ptr(s', p) == Ptr(s, p))
            && (z == 0 <==> Full(s))
            && (z == 0 ==> s'.blocks == s.blocks && forall x: nat :: Used(s', x) == Used(s, x))
            && (z != 0 ==> Data(s, z) && !Used(s, z) && s'.blocks == s.blocks[z := ZeroBlock()]
                           && (forall x: nat :: Used(s', x) == (Used(s, x) || x == z))
                           && forall x: nat :: Data(s, x) && x < z ==> Used(s, x))
  {
    var (s', z) := NewBlock(s);
    NewBlockBit(s);
    NewBlockPtrs(s);
    var p := Slot(0, 0);
    InvKept(s, s', p, Ptr(s, p));
  }

  /** Inv passes to a state in which at most place p has changed, to a zone named nowhere else. */
  lemma InvKept(s: Fs, s': Fs, p: Pos, z: nat)
    requires Inv(s) && Sized(s') && s'.zmap[0] && s'.busy == s.busy
    requires forall q: Pos :: Ptr(s', q) == if q == p then z else Ptr(s, q)
    requires z != 0 ==> Used(s', z) && forall q: Pos :: q != p ==> Ptr(s, q) != z
    requires forall x: nat :: Used(s, x) ==> Used(s', x)
    ensures Inv(s')
  {
    hide Ptr, Used, Sized;
  }

  lemma NewBlockPtrs(s: Fs)
    requires Inv(s)
    ensures forall p: Pos :: Ptr(NewBlock(s).0, p) == Ptr(s, p)
  {
    var (s', z) := NewBlock(s);
    NewBlockBit(s);
    if z != 0 {
      forall p: Pos | Container(s, p) != 0 ensures Container(s, p) != z { ContainerUsed(s, p); }
    }
    hide Ptr, Inv, Sized, Used, NewBlock;
    PtrsKept(s, s');
  }

  /** The bitmap side of new_block. */
  lemma NewBlockBit(s: Fs)
    requires Inv(s)
    ensures var (s', z) := NewBlock(s);
            && Sized(s') && SameShape(s, s') && s'.inodes == s.inodes && s'.zmap[0]
            && (z == 0 <==> Full(s))
            && (z == 0 ==> s'.blocks == s.blocks)
            && (z != 0 ==> Data(s, z) && z < |s.blocks| && !Used(s, z) && s'.blocks == s.blocks[z := ZeroBlock()]
                           && forall x: nat :: Data(s, x) && x < z ==> Used(s, x))
            && (forall x: nat :: Used(s', x) == (Used(s, x) || (z != 0 && x == z)))
  {
    hide Ptr;
    var (s', z) := NewBlock(s);
    var j := FirstZero(s.zmap, 0);
    assert j != 0;
    if z == 0 {
      forall x: nat | Data(s, x) ensures Used(s, x) {}
    } else {
      assert Data(s, z) && !Used(s, z);
    }
    forall x: nat ensures Used(s', x) == (Used(s, x) || (z != 0 && x == z)) {}
  }

  /** The place that names the block p is kept in; p itself for a place in an inode. */
  function Up(p: Pos): Pos {
    match p
    case Slot(_, _) => p
    case Ind(ino, _) => Slot(ino, 7)
    case Dind(ino, _) => Slot(ino, 8)
    case Leaf(ino, i, _) => Dind(ino, i)
  }

  /** The place that names the block q is kept in. */
  predicate Parent(p: Pos, q: Pos) {
    !q.Slot? && p == Up(q)
  }

  /** Place q lies in the tree that hangs from place p. */
  predicate Under(p: Pos, q: Pos) {
    Parent(p, q) || (q.Leaf? && p == Slot(q.ino, 8))
  }

  function Index(p: Pos): nat {
    match p case Slot(_, k) => k case Ind(_, i) => i case Dind(_, i) => i case Leaf(_, _, j) => j
  }

  /** Storing the number of a fresh, zero-filled zone z at p, whatever was there: the tree that hung
      from p is gone, and no other place changes. */
  lemma SetPtrOver(s: Fs, p: Pos, z: nat)
    requires Inv(s) && Exists(s, p) && Used(s, z) && s.blocks[z] == ZeroBlock()
    requires forall q: Pos :: Ptr(s, q) != z
    ensures !p.Slot? ==> Container(s, p) < |s.blocks|
    ensures forall q: Pos :: Ptr(SetPtr(s, p, z), q) == if q == p then z else if Under(p, q) then 0 else Ptr(s, q)
  {
    if !p.Slot? { ContainerUsed(s, p); }
    assert !p.Slot? ==> Container(s, p) != z;
    var s' := SetPtr(s, p, z);
    hide Inv, Ptr, SetPtr, Container, Exists, Used;
    forall q: Pos ensures Ptr(s', q) == if q == p then z else if Under(p, q) then 0 else Ptr(s, q) {
      PtrAfterSet(s, p, z, q);
    }
  }

  lemma PtrAfterSet(s: Fs, p: Pos, z: nat, q: Pos)
    requires Inv(s) && Exists(s, p) && Used(s, z) && s.blocks[z] == ZeroBlock()
    requires forall q: Pos :: Ptr(s, q) != z
    requires !p.Slot? ==> Container(s, p) < |s.blocks| && Container(s, p) != z
    ensures Ptr(SetPtr(s, p, z), q) == if q == p then z else if Under(p, q) then 0 else Ptr(s, q)
    decreases match q case Slot(_, _) => 0 case Ind(_, _) => 1 case Dind(_, _) => 1 case Leaf(_, _, _) => 2
  {
    match q
    case Slot(_, _) => hide Inv, Entry;
    case Ind(ino, i) => PtrAfterSet(s, p, z, Slot(ino, 7)); EntryAfterSet(s, p, z, Slot(ino, 7), q);
    case Dind(ino, i) => PtrAfterSet(s, p, z, Slot(ino, 8)); EntryAfterSet(s, p, z, Slot(ino, 8), q);
    case Leaf(ino, i, j) => PtrAfterSet(s, p, z, Dind(ino, i)); EntryAfterSet(s, p, z, Dind(ino, i), q);
  }

  lemma ContainerIs(s: Fs, q: Pos, c: Pos)
    requires Parent(c, q)
    ensures Container(s, q) == Ptr(s, c) && Ptr(s, q) == Entry(s, Ptr(s, c), Index(q)) && Under(c, q)
  {
  }

  /** Of two places kept in one block, both hang from the place that names it. */
  lemma OneParent(s: Fs, p: Pos, c: Pos)
    requires Inv(s) && !p.Slot? && Container(s, p) == Ptr(s, c) != 0
    ensures Parent(c, p)
  {
    assert Ptr(s, Up(p)) == Ptr(s, c);
  }

  /** The entry that holds q, of the block named at place c. */
  lemma EntryAfterSet(s: Fs, p: Pos, z: nat, c: Pos, q: Pos)
    requires Inv(s) && Exists(s, p) && Used(s, z) && s.blocks[z] == ZeroBlock()
    requires forall q: Pos :: Ptr(s, q) != z
    requires !p.Slot? ==> Container(s, p) < |s.blocks| && Container(s, p) != z
    requires Parent(c, q)
    ensures Entry(SetPtr(s, p, z), if c == p then z else if Under(p, c) then 0 else Ptr(s, c), Index(q))
            == if q == p then z else if Under(p, q) then 0 else Ptr(s, q)
  {
    ContainerIs(s, q, c);
    assert Entry(s, z, Index(q)) == 0;
    assert Ptr(s, c) == 0 ==> Ptr(s, q) == 0;
    if p.Slot? {
      SlotShape(s, p, z);
      hide Inv, Ptr, Entry, Container;
    } else {
      assert z < 65536 && Index(p) < PTRS;
      var x := Container(s, p);
      assert x != 0;
      SetEntryShape(s, x, Index(p), z);
      SetPtrIsSetEntry(s, p, z);
      if x == Ptr(s, c) { OneParent(s, p, c); }
      EntryOf(s, SetPtr(s, p, z), p, c, q, x, z);
    }
  }

  /** The same from what is known of the block changed. */
  lemma EntryOf(s: Fs, s': Fs, p: Pos, c: Pos, q: Pos, x: nat, z: nat)
    requires Parent(c, q) && x != 0 && x != z && !p.Slot?
    requires x == Ptr(s, c) <==> Parent(c, p)
    requires Ptr(s, q) == Entry(s, Ptr(s, c), Index(q))
    requires Entry(s, z, Index(q)) == 0 && (Ptr(s, c) == 0 ==> Ptr(s, q) == 0)
    requires forall y: nat, j: nat :: Entry(s', y, j) == if y == x && j == Index(p) then z else Entry(s, y, j)
    ensures Entry(s', if c == p then z else if Under(p, c) then 0 else Ptr(s, c), Index(q))
            == if q == p then z else if Under(p, q) then 0 else Ptr(s, q)
  {
    assert Entry(s', 0, Index(q)) == 0;
    hide Ptr, Entry;
  }

  /** Nothing hangs from an empty place. */
  lemma NothingUnder(s: Fs, p: Pos, q: Pos)
    requires Ptr(s, p) == 0 && Under(p, q)
    ensures Ptr(s, q) == 0
  {
    if q.Leaf? && p.Slot? { assert Ptr(s, Dind(q.ino, q.i)) == 0; }
  }

  /** At an empty place, the store changes that place and nothing else. */
  lemma SetPtrEffect(s: Fs, p: Pos, z: nat)
    requires Inv(s) && Exists(s, p) && Ptr(s, p) == 0 && Used(s, z) && s.blocks[z] == ZeroBlock()
    requires forall q: Pos :: Ptr(s, q) != z
    ensures !p.Slot? ==> Container(s, p) < |s.blocks|
    ensures forall q: Pos :: Ptr(SetPtr(s, p, z), q) == if q == p then z else Ptr(s, q)
  {
    SetPtrOver(s, p, z);
    forall q: Pos | Under(p, q) ensures Ptr(s, q) == 0 { NothingUnder(s, p, q); }
    hide *;
  }

  // ---------------------------------------------------------------- allocation at a place

  /** No block other than p's container and fresh zones has changed. */
  ghost predicate BlocksKept(s: Fs, s': Fs, c: nat) {
    forall z: nat :: Used(s, z) && z != c && z < |s.blocks| <= |s'.blocks| ==> s'.blocks[z] == s.blocks[z]
  }

  lemma AllocEffect(s: Fs, p: Pos)
    requires Inv(s) && Exists(s, p)
    ensures var (s', r) := AllocAt(s, p);
            && Inv(s') && SameShape(s, s')
            && (forall q: Pos :: Ptr(s', q) == if q == p then r else Ptr(s, q))
            && (r == 0 ==> Full(s))
            && (r != 0 ==> Used(s', r))
            && (r != Ptr(s, p) ==> !Used(s, r) && s'.blocks[r] == ZeroBlock())
            && (forall x: nat :: Used(s', x) == (Used(s, x) || (r != 0 && x == r)))
            && BlocksKept(s, s', Container(s, p))
  {
    if Ptr(s, p) == 0 {
      NewBlockEffect(s);
      if NewBlock(s).1 != 0 { AllocFresh(s, p); }
    }
    hide Inv, Ptr, Used, NewBlock, SetPtr;
  }

  lemma AllocFresh(s: Fs, p: Pos)
    requires Inv(s) && Exists(s, p) && Ptr(s, p) == 0 && NewBlock(s).1 != 0
    ensures var (s1, z) := NewBlock(s);
            && (p.Slot? ==> p.ino < |s1.inodes| && p.k < |s1.inodes[p.ino].zones|)
            && (!p.Slot? ==> Container(s1, p) < |s1.blocks|)
            && var s' := SetPtr(s1, p, z);
            && Inv(s') && SameShape(s, s')
            && (forall q: Pos :: Ptr(s', q) == if q == p then z else Ptr(s, q))
            && Used(s', z) && !Used(s, z) && s'.blocks[z] == ZeroBlock()
            && (forall x: nat :: Used(s', x) == (Used(s, x) || x == z))
            && BlocksKept(s, s', Container(s, p))
  {
    var (s1, z) := NewBlock(s);
    NewBlockEffect(s);
    FreshReady(s, p);
    hide NewBlock, Ptr, Inv, Container, Sized, Exists;
    SetPtrKeepsInv(s1, p, z);
  }

  lemma FreshReady(s: Fs, p: Pos)
    requires Inv(s) && Exists(s, p) && NewBlock(s).1 != 0
    ensures var (s1, z) := NewBlock(s);
            && Exists(s1, p) && Container(s1, p) == Container(s, p)
            && (p.Slot? ==> p.ino < |s1.inodes| && p.k < |s1.inodes[p.ino].zones|)
            && (!p.Slot? ==> Container(s1, p) < |s1.blocks|)
            && (forall q: Pos :: Ptr(s1, q) != z)
  {
    NewBlockEffect(s);
    SameContainer(s, NewBlock(s).0, p);
    if !p.Slot? { ContainerUsed(s, p); }
    FreshIsNowhere(s, NewBlock(s).1);
    hide NewBlock, Ptr;
  }

  lemma SameContainer(s: Fs, s': Fs, p: Pos)
    requires forall q: Pos :: Ptr(s', q) == Ptr(s, q)
    ensures Container(s', p) == Container(s, p)
  {
  }

  lemma FreshIsNowhere(s: Fs, z: nat)
    requires Inv(s) && !Used(s, z) && z != 0
    ensures forall q: Pos :: Ptr(s, q) != z
  {
  }

  lemma SetPtrKeepsInv(s: Fs, p: Pos, z: nat)
    requires Inv(s) && Exists(s, p) && Ptr(s, p) == 0 && Used(s, z) && s.blocks[z] == ZeroBlock()
    requires forall q: Pos :: Ptr(s, q) != z
    requires !p.Slot? ==> Container(s, p) < |s.blocks|
    ensures var s' := SetPtr(s, p, z);
            && Inv(s') && SameShape(s, s') && s'.zmap == s.zmap && BlocksKept(s, s', Container(s, p))
            && s'.blocks[z] == ZeroBlock()
            && (forall q: Pos :: Ptr(s', q) == if q == p then z else Ptr(s, q))
            && (forall x: nat :: Used(s', x) == Used(s, x))
  {
    SetPtrEffect(s, p, z);
    SetPtrShape(s, p, z);
    InvKept(s, SetPtr(s, p, z), p, z);
  }

  lemma SetPtrShape(s: Fs, p: Pos, z: nat)
    requires Inv(s) && Exists(s, p) && Ptr(s, p) == 0 && Used(s, z) && s.blocks[z] == ZeroBlock()
    requires forall q: Pos :: Ptr(s, q) != z
    requires !p.Slot? ==> Container(s, p) < |s.blocks|
    ensures var s' := SetPtr(s, p, z);
            && Sized(s') && SameShape(s, s') && s'.zmap == s.zmap && BlocksKept(s, s', Container(s, p))
            && s'.blocks[z] == ZeroBlock() && (forall x: nat :: Used(s', x) == Used(s, x))
  {
    if !p.Slot? {
      ContainerUsed(s, p);
      assert Container(s, p) != z;
      SetEntryShape(s, Container(s, p), Index(p), z);
      SetPtrIsSetEntry(s, p, z);
      hide *;
    } else {
      SlotShape(s, p, z);
    }
    hide *;
  }

  lemma SlotShape(s: Fs, p: Pos, z: nat)
    requires Sized(s) && Exists(s, p) && p.Slot?
    ensures var s' := SetPtr(s, p, z);
            && Sized(s') && SameShape(s, s') && s'.zmap == s.zmap && s'.blocks == s.blocks
            && BlocksKept(s, s', Container(s, p)) && (forall x: nat :: Used(s', x) == Used(s, x))
  {
    hide Ptr, IsBlock;
  }

  lemma SetPtrUses(s: Fs, p: Pos, z: nat)
    requires !p.Slot? ==> Container(s, p) < |s.blocks|
    requires p.Slot? ==> p.ino < |s.inodes| && p.k < |s.inodes[p.ino].zones|
    ensures forall x: nat :: Used(SetPtr(s, p, z), x) == Used(s, x)
  {
  }

  lemma SetPtrIsSetEntry(s: Fs, p: Pos, z: nat)
    requires !p.Slot? && Container(s, p) < |s.blocks|
    ensures SetPtr(s, p, z) == SetEntry(s, Container(s, p), Index(p), z)
  {
  }

  lemma SetEntryShape(s: Fs, c: nat, i: nat, z: nat)
    requires Sized(s) && c < |s.blocks| && i < PTRS && z < 65536
    ensures var s' := SetEntry(s, c, i, z);
            && Sized(s') && SameShape(s, s') && s'.zmap == s.zmap && s'.inodes == s.inodes && BlocksKept(s, s', c)
            && (forall x: nat :: x != c && x < |s.blocks| ==> s'.blocks[x] == s.blocks[x])
            && (forall x: nat :: Used(s', x) == Used(s, x))
            && (forall x: nat, j: nat :: Entry(s', x, j) ==
                  if x == c && c != 0 && j == i then z else Entry(s, x, j))
  {
    SetWordEffect(s.blocks[c], i, z);
    hide SetWord, Word;
  }

  // ---------------------------------------------------------------- create_block

  /** Contents of mapped file blocks. */
  ghost predicate DataKept(s: Fs, s': Fs) {
    forall ino: nat, n: nat :: n < MAX_BLOCKS && Bmap(s, ino, n) != 0 && Bmap(s, ino, n) < |s.blocks| <= |s'.blocks| ==>
      s'.blocks[Bmap(s, ino, n)] == s.blocks[Bmap(s, ino, n)]
  }

  /** A place is not a file block's place if other places are kept below it. */
  predicate Inner(p: Pos) {
    (p.Slot? && p.k >= NDIRECT) || p.Dind?
  }

  lemma LeafNotInner(ino: nat, n: nat)
    ensures !Inner(LeafPos(ino, n))
  {
  }

  lemma AllocKeepsData(s: Fs, p: Pos)
    requires Inv(s) && Exists(s, p)
    ensures DataKept(s, AllocAt(s, p).0)
  {
    AllocEffect(s, p);
    var s' := AllocAt(s, p).0;
    forall ino: nat, n: nat | n < MAX_BLOCKS && Bmap(s, ino, n) != 0
      ensures s'.blocks[Bmap(s, ino, n)] == s.blocks[Bmap(s, ino, n)]
    {
      assert Used(s, Bmap(s, ino, n));
      if Container(s, p) == Bmap(s, ino, n) {
        LeafNotInner(ino, n);
        ContainerInner(s, p);
      }
    }
  }

  /** The block a place is kept in is named at an inner place. */
  lemma ContainerInner(s: Fs, p: Pos)
    requires Inv(s) && Container(s, p) != 0
    ensures forall q: Pos :: Ptr(s, q) == Container(s, p) ==> Inner(q)
  {
    assert Ptr(s, Up(p)) == Container(s, p) && Inner(Up(p));
  }

  /** An indirect block may have been allocated; no file's map and no file block has changed. */
  ghost predicate InnerStep(s: Fs, s': Fs) {
    && Inv(s') && SameShape(s, s') && DataKept(s, s')
    && (forall q: Pos :: !Inner(q) ==> Ptr(s', q) == Ptr(s, q))
    && (forall x: nat :: Used(s, x) ==> Used(s', x))
  }

  lemma InnerAlloc(s: Fs, s1: Fs, p: Pos)
    requires InnerStep(s, s1) && Inner(p) && Exists(s1, p)
    ensures var (s', r) := AllocAt(s1, p);
            && InnerStep(s, s') && Ptr(s', p) == r
            && (r == 0 ==> Full(s'))
            && (p.Dind? ==> Ptr(s', Slot(p.ino, 8)) == Ptr(s1, Slot(p.ino, 8)))
  {
    AllocEffect(s1, p);
    AllocKeepsData(s1, p);
    var s' := AllocAt(s1, p).0;
    forall ino: nat, n: nat | n < MAX_BLOCKS && Bmap(s, ino, n) != 0
      ensures Bmap(s1, ino, n) == Bmap(s, ino, n)
    {
      LeafNotInner(ino, n);
    }
  }

  /** The whole claim about one call of create_block. */
  ghost predicate MapStep(s: Fs, s': Fs, ino: nat, n: nat, r: nat) {
    && Inv(s') && SameShape(s, s') && DataKept(s, s')
    && (forall ino': nat, n': nat :: n' < MAX_BLOCKS ==>
          Bmap(s', ino', n') == if ino' == ino && n' == n && r != 0 then r else Bmap(s, ino', n'))
    && (r != 0 ==> Used(s', r))
    && (r == 0 ==> Bmap(s, ino, n) == 0 && Full(s'))
    && (r != 0 && Bmap(s, ino, n) == 0 ==> !Used(s, r) && s'.blocks[r] == ZeroBlock())
    && (forall x: nat :: Used(s, x) ==> Used(s', x))
  }

  lemma LastAlloc(s: Fs, s1: Fs, ino: nat, n: nat)
    requires Inv(s) && InnerStep(s, s1) && n < MAX_BLOCKS && Exists(s1, LeafPos(ino, n))
    ensures MapStep(s, AllocAt(s1, LeafPos(ino, n)).0, ino, n, AllocAt(s1, LeafPos(ino, n)).1)
  {
    var p := LeafPos(ino, n);
    LeafNotInner(ino, n);
    AllocEffect(s1, p);
    AllocKeepsData(s1, p);
    var (s', r) := AllocAt(s1, p);
    forall ino': nat, n': nat | n' < MAX_BLOCKS
      ensures Bmap(s1, ino', n') == Bmap(s, ino', n')
      ensures Bmap(s', ino', n') == if ino' == ino && n' == n then r else Bmap(s, ino', n')
    {
      LeafNotInner(ino', n');
      if LeafPos(ino', n') == p { LeafPosInjective(ino', n', ino, n); }
    }
  }

  /** No room for an indirect block: nothing is mapped below it. */
  lemma NoRoom(s: Fs, s': Fs, ino: nat, n: nat)
    requires Inv(s) && InnerStep(s, s') && Full(s') && n < MAX_BLOCKS && Bmap(s', ino, n) == 0
    ensures MapStep(s, s', ino, n, 0)
  {
    forall ino': nat, n': nat | n' < MAX_BLOCKS ensures Bmap(s', ino', n') == Bmap(s, ino', n') {
      LeafNotInner(ino', n');
    }
  }

  lemma InnerRefl(s: Fs)
    requires Inv(s)
    ensures InnerStep(s, s)
  {
  }

  lemma CreateIndirect(s: Fs, ino: nat, n: nat)
    requires Inv(s) && ino < |s.inodes| && NDIRECT <= n < NDIRECT + PTRS
    ensures MapStep(s, CreateBlock(s, ino, n).0, ino, n, CreateBlock(s, ino, n).1)
  {
    InnerRefl(s);
    InnerAlloc(s, s, Slot(ino, 7));
    var (s1, a) := AllocAt(s, Slot(ino, 7));
    if a == 0 {
      assert Bmap(s1, ino, n) == 0;
      NoRoom(s, s1, ino, n);
    } else {
      LastAlloc(s, s1, ino, n);
    }
  }

  lemma LeafIndex(n: nat)
    requires NDIRECT + PTRS <= n < MAX_BLOCKS
    ensures (n - NDIRECT - PTRS) / PTRS < PTRS && (n - NDIRECT - PTRS) % PTRS < PTRS
  {
  }

  lemma CreateDouble(s: Fs, ino: nat, n: nat)
    requires Inv(s) && ino < |s.inodes| && NDIRECT + PTRS <= n < MAX_BLOCKS
    ensures MapStep(s, CreateBlock(s, ino, n).0, ino, n, CreateBlock(s, ino, n).1)
  {
    var i := (n - NDIRECT - PTRS) / PTRS;
    LeafIndex(n);
    InnerRefl(s);
    InnerAlloc(s, s, Slot(ino, 8));
    var (s1, a) := AllocAt(s, Slot(ino, 8));
    if a == 0 {
      assert Ptr(s1, Dind(ino, i)) == 0;
      assert Bmap(s1, ino, n) == 0;
      NoRoom(s, s1, ino, n);
    } else {
      InnerAlloc(s, s1, Dind(ino, i));
      var (s2, b) := AllocAt(s1, Dind(ino, i));
      if b == 0 {
        assert Bmap(s2, ino, n) == 0;
        NoRoom(s, s2, ino, n);
      } else {
        LastAlloc(s, s2, ino, n);
      }
    }
  }

  /** create_block, whatever it allocates on the way, changes the map of no file except that block n of
      file ino now has the zone returned, a fresh zero-filled one if there was none. It returns 0 only
      when the disk is full, and then no map has changed at all. */
  lemma CreateBlockEffect(s: Fs, ino: nat, n: nat)
    requires Inv(s) && ino < |s.inodes| && n < MAX_BLOCKS
    ensures MapStep(s, CreateBlock(s, ino, n).0, ino, n, CreateBlock(s, ino, n).1)
  {
    if n < NDIRECT {
      InnerRefl(s);
      LastAlloc(s, s, ino, n);
    } else if n < NDIRECT + PTRS {
      CreateIndirect(s, ino, n);
    } else {
      CreateDouble(s, ino, n);
    }
  }

  /** A block that is mapped already is left as it is. */
  lemma CreateExisting(s: Fs, ino: nat, n: nat)
    requires Inv(s) && ino < |s.inodes| && n < MAX_BLOCKS && Bmap(s, ino, n) != 0
    ensures CreateBlock(s, ino, n) == (s, Bmap(s, ino, n))
  {
    if n >= NDIRECT + PTRS {
      var i := (n - NDIRECT - PTRS) / PTRS;
      assert Ptr(s, Dind(ino, i)) != 0;
      assert Ptr(s, Slot(ino, 8)) != 0;
    } else if n >= NDIRECT {
      assert Ptr(s, Slot(ino, 7)) != 0;
    }
  }
}
