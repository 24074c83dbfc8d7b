/** `fs/truncate.c`: the release of a whole block tree. */
module Truncate {
  import opened Zones
  import opened ZoneTree
  import opened FileBytes

  // ---------------------------------------------------------------- freeing a list of zones

  /** free_block, guarded as its callers guard it: nothing for zone number 0. */
  function FreeZone(s: Fs, z: nat): Fs {
    if z != 0 && Freeable(s, z) then FreeBlock(s, z) else s
  }

  function FreeZones(s: Fs, zs: seq<nat>): (r: Fs)
    ensures r.inodes == s.inodes && r.blocks == s.blocks
  {
    if zs == [] then s else FreeZone(FreeZones(s, zs[..|zs| - 1]), zs[|zs| - 1])
  }

  /** Non-zero entries are distinct used zones. */
  ghost predicate Releasable(s: Fs, zs: seq<nat>) {
    && (forall i :: 0 <= i < |zs| && zs[i] != 0 ==> Used(s, zs[i]))
    && (forall i, j :: 0 <= i < j < |zs| && zs[i] != 0 ==> zs[i] != zs[j])
  }

  ghost predicate OnlyBits(s: Fs, r: Fs) {
    r == s.(zmap := r.zmap) && |r.zmap| == |s.zmap|
  }

  lemma OneFreed(s: Fs, z: nat)
    requires Sized(s) && (z != 0 ==> Freeable(s, z))
    ensures var r := FreeZone(s, z);
            && OnlyBits(s, r) && (s.zmap[0] ==> r.zmap[0])
            && (forall x: nat :: Used(r, x) == (Used(s, x) && !(x == z && z !in s.busy && z != 0)))
  {
  }

  /** Freeing a list clears the bits of its zones, those that nobody else holds, and no other bit. */
  lemma {:induction false} FreedEffect(s: Fs, zs: seq<nat>)
    requires Sized(s) && Releasable(s, zs)
    ensures var r := FreeZones(s, zs);
            && OnlyBits(s, r) && (s.zmap[0] ==> r.zmap[0])
            && (forall z: nat :: Used(r, z) == (Used(s, z) && !(z in zs && z !in s.busy && z != 0)))
  {
    if zs != [] {
      var n := |zs| - 1;
      FreedEffect(s, zs[..n]);
      var r1 := FreeZones(s, zs[..n]);
      assert zs == zs[..n] + [zs[n]];
      assert zs[n] != 0 ==> zs[n] !in zs[..n];
      OneFreed(r1, zs[n]);
    }
  }

  /** The panic "bit already cleared" cannot happen along a releasable list. */
  lemma NextFreeable(s: Fs, zs: seq<nat>, k: nat)
    requires Sized(s) && Releasable(s, zs) && k < |zs| && zs[k] != 0
    ensures Freeable(FreeZones(s, zs[..k]), zs[k])
  {
    FreedEffect(s, zs[..k]);
  }

  lemma {:induction false} FreeConcat(s: Fs, a: seq<nat>, b: seq<nat>)
    ensures FreeZones(s, a + b) == FreeZones(FreeZones(s, a), b)
  {
    if b == [] {
      assert a + b == a;
    } else {
      var n := |b| - 1;
      assert (a + b)[..|a| + n] == a + b[..n];
      FreeConcat(s, a, b[..n]);
    }
  }

  lemma ReleasableRest(s: Fs, a: seq<nat>, b: seq<nat>)
    requires Sized(s) && Releasable(s, a + b)
    ensures Releasable(s, a) && Releasable(FreeZones(s, a), b)
  {
    assert forall i :: 0 <= i < |a| ==> a[i] == (a + b)[i];
    assert forall i :: 0 <= i < |b| ==> b[i] == (a + b)[|a| + i];
    FreedEffect(s, a);
    forall i | 0 <= i < |b| && b[i] != 0 ensures Used(FreeZones(s, a), b[i]) {
      assert b[i] !in a;
    }
  }

  lemma {:induction false} FreeNothing(s: Fs, zs: seq<nat>)
    requires forall i :: 0 <= i < |zs| ==> zs[i] == 0
    ensures FreeZones(s, zs) == s
  {
    if zs != [] { FreeNothing(s, zs[..|zs| - 1]); }
  }

  // ---------------------------------------------------------------- the tree in the order it is freed

  /** The zone numbers in a block. */
  function Words(b: Block): (w: seq<nat>)
    ensures |w| == PTRS && forall i :: 0 <= i < PTRS ==> w[i] == Word(b, i)
  {
    seq<nat>(PTRS, i requires 0 <= i => Word(b, i))
  }

  /** free_ind: the entries of the block, then the block. */
  function IndZones(s: Fs, z: nat): seq<nat> {
    if z == 0 || z >= |s.blocks| then [] else Words(s.blocks[z]) + [z]
  }

  /** free_ind for each of the entries. */
  function IndLists(s: Fs, w: seq<nat>): seq<nat> {
    if w == [] then [] else IndLists(s, w[..|w| - 1]) + IndZones(s, w[|w| - 1])
  }

  /** free_dind. */
  function DindZones(s: Fs, z: nat): seq<nat> {
    if z == 0 || z >= |s.blocks| then [] else IndLists(s, Words(s.blocks[z])) + [z]
  }

  /** All the zones of a file, in the order truncate frees them. */
  function TreeZones(s: Fs, ino: nat): seq<nat>
    requires ino < |s.inodes| && |s.inodes[ino].zones| == 9
  {
    var z := s.inodes[ino].zones;
    z[..7] + IndZones(s, z[7]) + DindZones(s, z[8])
  }

  /** A list of zones is that of a list of places: same order, and a place may be missing only where
      there is no zone. */
  ghost predicate Kept(s: Fs, zs: seq<nat>, ps: seq<Pos>) {
    && |ps| == |zs|
    && (forall i :: 0 <= i < |zs| ==> zs[i] == Ptr(s, ps[i]))
    && (forall i, j :: 0 <= i < j < |ps| ==> ps[i] != ps[j])
  }

  /** Zones kept at distinct places can be freed one after the other. */
  lemma KeptReleasable(s: Fs, zs: seq<nat>, ps: seq<Pos>)
    requires Inv(s) && Kept(s, zs, ps)
    ensures Releasable(s, zs)
  {
    forall i | 0 <= i < |zs| && zs[i] != 0 ensures Used(s, zs[i]) { assert Ptr(s, ps[i]) == zs[i]; }
    forall i, j | 0 <= i < j < |zs| && zs[i] != 0 ensures zs[i] != zs[j] {
      assert Ptr(s, ps[i]) == zs[i] && Ptr(s, ps[j]) == zs[j];
    }
  }

  lemma KeptConcat(s: Fs, a: seq<nat>, pa: seq<Pos>, b: seq<nat>, pb: seq<Pos>)
    requires Kept(s, a, pa) && Kept(s, b, pb) && forall p :: p in pa ==> p !in pb
    ensures Kept(s, a + b, pa + pb)
  {
    forall i, j | 0 <= i < j < |pa + pb| ensures (pa + pb)[i] != (pa + pb)[j] {
      if i < |pa| <= j { assert pa[i] in pa && pb[j - |pa|] in pb; }
    }
  }

  /** The places of the entries of the block named at place c, and c itself. */
  predicate Below(c: Pos, p: Pos) {
    p == c || (match p
               case Slot(_, _) => false
               case Ind(ino, i) => c == Slot(ino, 7) && i < PTRS
               case Dind(ino, i) => c == Slot(ino, 8) && i < PTRS
               case Leaf(ino, i, j) => c == Dind(ino, i) && j < PTRS)
  }

  function Child(c: Pos, i: nat): Pos {
    match c
    case Slot(ino, k) => if k == 7 then Ind(ino, i) else Dind(ino, i)
    case Dind(ino, d) => Leaf(ino, d, i)
    case Ind(_, _) => c
    case Leaf(_, _, _) => c
  }

  lemma IndKept(s: Fs, c: Pos) returns (ps: seq<Pos>)
    requires Inv(s) && ((c.Slot? && c.k == 7) || c.Dind?)
    ensures Kept(s, IndZones(s, Ptr(s, c)), ps)
    ensures forall p :: p in ps ==> Below(c, p)
    ensures forall p :: Below(c, p) && Ptr(s, p) != 0 ==> p in ps
  {
    var z := Ptr(s, c);
    if z == 0 {
      ps := [];
    } else {
      assert Used(s, z);
      var row := seq(PTRS, i requires 0 <= i => Child(c, i));
      ps := row + [c];
      assert forall i :: 0 <= i < PTRS ==> row[i] == Child(c, i) && Ptr(s, row[i]) == Entry(s, z, i);
      forall p | Below(c, p) && Ptr(s, p) != 0 ensures p in ps {
        if p != c {
          var i := match p case Slot(_, k) => k case Ind(_, i) => i case Dind(_, i) => i case Leaf(_, _, j) => j;
          assert p == row[i];
        }
      }
    }
  }

  /** Below one of the first k entries of the double-indirect block. */
  predicate BelowDinds(ino: nat, k: nat, p: Pos) {
    match p
    case Slot(_, _) => false
    case Ind(_, _) => false
    case Dind(n, i) => n == ino && i < k
    case Leaf(n, i, j) => n == ino && i < k && j < PTRS
  }

  lemma {:induction false} ListsKept(s: Fs, ino: nat, k: nat) returns (ps: seq<Pos>)
    requires Inv(s) && k <= PTRS && Ptr(s, Slot(ino, 8)) != 0 && Ptr(s, Slot(ino, 8)) < |s.blocks|
    ensures Kept(s, IndLists(s, Words(s.blocks[Ptr(s, Slot(ino, 8))])[..k]), ps)
    ensures forall p :: p in ps ==> BelowDinds(ino, k, p)
    ensures forall p :: BelowDinds(ino, k, p) && Ptr(s, p) != 0 ==> p in ps
    decreases k
  {
    hide Inv, Kept, IndLists, IndZones, Ptr;
    var w := Words(s.blocks[Ptr(s, Slot(ino, 8))]);
    if k == 0 {
      ps := [];
      NoLists(s, w[..0]);
    } else {
      var c := Dind(ino, k - 1);
      var pa := ListsKept(s, ino, k - 1);
      var pb := IndKept(s, c);
      DindEntry(s, ino, k - 1);
      ListsStep(s, w, k);
      KeptConcat(s, IndLists(s, w[..k - 1]), pa, IndZones(s, w[k - 1]), pb);
      ps := pa + pb;
      forall p | BelowDinds(ino, k, p) && Ptr(s, p) != 0 ensures p in ps {
        if !BelowDinds(ino, k - 1, p) { assert Below(c, p); }
      }
    }
  }

  lemma NoLists(s: Fs, w: seq<nat>)
    requires w == []
    ensures IndLists(s, w) == [] && Kept(s, IndLists(s, w), [])
  {
  }

  lemma DindEntry(s: Fs, ino: nat, i: nat)
    requires i < PTRS && Ptr(s, Slot(ino, 8)) != 0 && Ptr(s, Slot(ino, 8)) < |s.blocks|
    ensures Ptr(s, Dind(ino, i)) == Words(s.blocks[Ptr(s, Slot(ino, 8))])[i]
  {
  }

  lemma ListsStep(s: Fs, w: seq<nat>, k: nat)
    requires 0 < k <= |w|
    ensures IndLists(s, w[..k]) == IndLists(s, w[..k - 1]) + IndZones(s, w[k - 1])
  {
    assert w[..k][..k - 1] == w[..k - 1];
  }

  /** Every place of a file. */
  predicate InTree(ino: nat, p: Pos) {
    match p
    case Slot(n, k) => n == ino && k < 9
    case Ind(n, i) => n == ino && i < PTRS
    case Dind(n, i) => n == ino && i < PTRS
    case Leaf(n, i, j) => n == ino && i < PTRS && j < PTRS
  }

  lemma DindKept(s: Fs, ino: nat) returns (ps: seq<Pos>)
    requires Inv(s)
    ensures Kept(s, DindZones(s, Ptr(s, Slot(ino, 8))), ps)
    ensures forall p :: p in ps ==> p == Slot(ino, 8) || BelowDinds(ino, PTRS, p)
    ensures forall p :: (p == Slot(ino, 8) || BelowDinds(ino, PTRS, p)) && Ptr(s, p) != 0 ==> p in ps
  {
    var z := Ptr(s, Slot(ino, 8));
    if z == 0 {
      ps := [];
    } else {
      assert Used(s, z);
      var w := Words(s.blocks[z]);
      assert w[..PTRS] == w;
      var pa := ListsKept(s, ino, PTRS);
      ps := pa + [Slot(ino, 8)];
      KeptConcat(s, IndLists(s, w), pa, [z], [Slot(ino, 8)]);
    }
  }

  lemma DirectKept(s: Fs, ino: nat) returns (ps: seq<Pos>)
    requires ino < |s.inodes| && |s.inodes[ino].zones| == 9
    ensures |ps| == 7 && forall k :: 0 <= k < 7 ==> ps[k] == Slot(ino, k)
    ensures Kept(s, s.inodes[ino].zones[..7], ps)
  {
    ps := seq(7, k requires 0 <= k => Slot(ino, k));
  }

  /** The list truncate frees holds every zone of the file exactly once. */
  lemma TreeKept(s: Fs, ino: nat) returns (ps: seq<Pos>)
    requires Inv(s) && ino < |s.inodes| && |s.inodes[ino].zones| == 9
    ensures Kept(s, TreeZones(s, ino), ps)
    ensures forall p :: p in ps ==> InTree(ino, p)
    ensures forall p :: InTree(ino, p) && Ptr(s, p) != 0 ==> p in ps
  {
    hide Inv, IndZones, DindZones, Kept;
    var z := s.inodes[ino].zones;
    var direct := DirectKept(s, ino);
    var pi := IndKept(s, Slot(ino, 7));
    var pd := DindKept(s, ino);
    assert z[7] == Ptr(s, Slot(ino, 7)) && z[8] == Ptr(s, Slot(ino, 8));
    KeptConcat(s, z[..7], direct, IndZones(s, z[7]), pi);
    KeptConcat(s, z[..7] + IndZones(s, z[7]), direct + pi, DindZones(s, z[8]), pd);
    ps := direct + pi + pd;
    forall p | InTree(ino, p) && Ptr(s, p) != 0 ensures p in ps {
      if p.Slot? && p.k < 7 { assert p == direct[p.k]; }
      else if (p.Slot? && p.k == 7) || p.Ind? { assert Below(Slot(ino, 7), p); }
    }
  }

  lemma TreeReleasable(s: Fs, ino: nat)
    requires Inv(s) && ino < |s.inodes|
    ensures Releasable(s, TreeZones(s, ino))
    ensures forall z :: z != 0 ==> (z in TreeZones(s, ino) <==> exists p: Pos :: InTree(ino, p) && Ptr(s, p) == z)
  {
    var ps := TreeKept(s, ino);
    var zs := TreeZones(s, ino);
    KeptReleasable(s, zs, ps);
    forall z | z != 0 ensures z in zs <==> exists p: Pos :: InTree(ino, p) && Ptr(s, p) == z {
      if z in zs {
        var i :| 0 <= i < |zs| && zs[i] == z;
        assert ps[i] in ps && Ptr(s, ps[i]) == z;
      }
      if p: Pos :| InTree(ino, p) && Ptr(s, p) == z {
        assert p in ps;
        var i :| 0 <= i < |ps| && ps[i] == p;
        assert zs[i] == z;
      }
    }
  }

  // ---------------------------------------------------------------- truncate

  function NoZones(): (z: seq<nat>)
    ensures |z| == 9 && forall k :: 0 <= k < 9 ==> z[k] == 0
  {
    [0, 0, 0, 0, 0, 0, 0, 0, 0]
  }

  function Emptied(s: Fs, ino: nat): Fs
    requires ino < |s.inodes|
  {
    s.(inodes := s.inodes[ino := Inode(NoZones(), 0, s.inodes[ino].kind)])
  }

  /** truncate: only regular files and directories have a tree to free. */
  function TruncateFile(s: Fs, ino: nat): Fs
    requires ino < |s.inodes| && |s.inodes[ino].zones| == 9
  {
    if s.inodes[ino].kind == Other then s else Emptied(FreeZones(s, TreeZones(s, ino)), ino)
  }

  ghost function UsedZones(s: Fs): set<nat> {
    set z: nat | z < s.nzones && Used(s, z)
  }

  ghost function TreeSet(s: Fs, ino: nat): set<nat>
    requires ino < |s.inodes| && |s.inodes[ino].zones| == 9
  {
    set z | z in TreeZones(s, ino) && z != 0
  }

  lemma PtrAfterEmptied(s: Fs, r: Fs, ino: nat, p: Pos)
    requires ino < |s.inodes| && |s.inodes[ino].zones| == 9 && r == Emptied(s.(zmap := r.zmap), ino)
    ensures Ptr(r, p) == if p.ino == ino then 0 else Ptr(s, p)
    decreases match p case Slot(_, _) => 0 case Ind(_, _) => 1 case Dind(_, _) => 1 case Leaf(_, _, _) => 2
  {
    match p
    case Slot(_, _) =>
    case Ind(n, _) => PtrAfterEmptied(s, r, ino, Slot(n, 7));
    case Dind(n, _) => PtrAfterEmptied(s, r, ino, Slot(n, 8));
    case Leaf(n, i, _) => PtrAfterEmptied(s, r, ino, Dind(n, i));
  }

  /** truncate releases exactly the file's tree: each of its zones that nobody else is holding becomes
      free, no other zone changes state, the file has no block left and reads as zeros, and no other
      file is touched. */
  lemma TruncateEffect(s: Fs, ino: nat)
    requires Inv(s) && ino < |s.inodes| && s.inodes[ino].kind != Other
    ensures var r := TruncateFile(s, ino);
            && Inv(r)
            && (forall z: nat :: Used(r, z) == (Used(s, z) && !(z in TreeSet(s, ino) && z !in s.busy)))
            && (forall p: Pos :: Ptr(r, p) == if p.ino == ino then 0 else Ptr(s, p))
            && (forall n: nat :: Bmap(r, ino, n) == 0)
            && (forall ino': nat, q: nat :: FileByte(r, ino', q) == if ino' == ino then 0 else FileByte(s, ino', q))
            && |r.inodes| == |s.inodes| && r.inodes[ino].size == 0
            && forall i :: 0 <= i < |s.inodes| && i != ino ==> r.inodes[i] == s.inodes[i]
  {
    TreeReleasable(s, ino);
    var zs := TreeZones(s, ino);
    FreedEffect(s, zs);
    var r1, r := FreeZones(s, zs), TruncateFile(s, ino);
    hide Releasable, TreeZones, FreeZones, FileByte;
    forall p: Pos ensures Ptr(r, p) == if p.ino == ino then 0 else Ptr(s, p) { PtrAfterEmptied(s, r, ino, p); }
    forall z: nat ensures Used(r, z) == (Used(s, z) && !(z in TreeSet(s, ino) && z !in s.busy))
    {
      assert Used(r, z) == Used(r1, z);
    }
    OthersStayUsed(s, r, ino);
    BytesAfterEmptied(s, r, ino);
  }

  lemma BytesAfterEmptied(s: Fs, r: Fs, ino: nat)
    requires r.blocks == s.blocks && forall p: Pos :: Ptr(r, p) == if p.ino == ino then 0 else Ptr(s, p)
    ensures forall n: nat :: Bmap(r, ino, n) == 0
    ensures forall ino': nat, q: nat :: FileByte(r, ino', q) == if ino' == ino then 0 else FileByte(s, ino', q)
  {
  }

  /** A zone of another file is not in the tree, so it stays used. */
  lemma OthersStayUsed(s: Fs, r: Fs, ino: nat)
    requires Inv(s) && ino < |s.inodes|
    requires forall z: nat :: Used(r, z) == (Used(s, z) && !(z in TreeSet(s, ino) && z !in s.busy))
    requires forall p: Pos :: Ptr(r, p) == if p.ino == ino then 0 else Ptr(s, p)
    ensures forall p: Pos :: Ptr(r, p) != 0 ==> Used(r, Ptr(r, p))
  {
    TreeReleasable(s, ino);
    forall p: Pos | Ptr(r, p) != 0 ensures Used(r, Ptr(r, p)) {
      assert Ptr(s, p) == Ptr(r, p) && p.ino != ino;
      assert Ptr(s, p) in TreeZones(s, ino) ==> exists p': Pos :: InTree(ino, p') && Ptr(s, p') == Ptr(s, p);
    }
  }

  /** With no other holders, the number of used zones drops by the size of the tree. */
  lemma TruncateCount(s: Fs, ino: nat)
    requires Inv(s) && ino < |s.inodes| && s.inodes[ino].kind != Other
    requires s.busy !! TreeSet(s, ino)
    ensures |UsedZones(TruncateFile(s, ino))| == |UsedZones(s)| - |TreeSet(s, ino)|
  {
    TruncateEffect(s, ino);
    TreeReleasable(s, ino);
    var T, U, U' := TreeSet(s, ino), UsedZones(s), UsedZones(TruncateFile(s, ino));
    forall z | z in T ensures z in U {
      var i :| 0 <= i < |TreeZones(s, ino)| && TreeZones(s, ino)[i] == z;
    }
    assert U' == U - T;
  }
}
