/** `_bmap` looks at a place, sleeps in new_block, and then stores where it looked, without looking again. What
    that does when somebody has filled the place meanwhile, or has taken away the block it is kept in. */
module FsRaces {
  import opened Zones
  import opened ZoneTree
  import opened FileBytes
  import opened Truncate
  import opened FsRuns

  /** As new_block leaves it for its caller: zone z is marked used, is cleared, and is not yet kept anywhere. */
  ghost predicate Fresh(s: Fs, z: nat) {
    && Inv(s) && Used(s, z) && !Named(s, z)
    && z < |s.blocks| && s.blocks[z] == ZeroBlock()
  }

  // ---------------------------------------------------------------- the late store

  /** Where place p was found at the look: in its inode, or in block c. */
  ghost predicate Spot(s: Fs, p: Pos, c: nat) {
    if p.Slot? then c == 0 && p.ino < |s.inodes| && p.k < 9 && |s.inodes[p.ino].zones| == 9
    else 0 < c < |s.blocks| && Index(p) < PTRS
  }

  /** The store goes to the same word, whatever that is by now. */
  ghost function LateStore(s: Fs, p: Pos, c: nat, z: nat): Fs
    requires Spot(s, p, c)
  {
    if p.Slot? then SetPtr(s, p, z) else SetEntry(s, c, Index(p), z)
  }

  /** What a second look at that word would find. */
  ghost function LateLook(s: Fs, p: Pos, c: nat): nat
    requires Spot(s, p, c)
  {
    if p.Slot? then Ptr(s, p) else Entry(s, c, Index(p))
  }

  /** Place q is now kept in the word that p was found in. */
  ghost predicate KeptThere(s: Fs, p: Pos, c: nat, q: Pos) {
    if p.Slot? then q == p else !q.Slot? && Container(s, q) == c && Index(q) == Index(p)
  }

  /** The store leaks no zone exactly when the word still keeps a place of a file, and that is empty. */
  lemma LateStoreIff(s: Fs, p: Pos, c: nat, z: nat)
    requires Fresh(s, z) && Spot(s, p, c)
    requires forall x: nat :: Used(s, x) && x != z && x != c ==> Named(s, x)
    ensures NoLeak(LateStore(s, p, c, z)) <==> exists q: Pos :: KeptThere(s, p, c, q) && Ptr(s, q) == 0
  {
    if q: Pos :| KeptThere(s, p, c, q) {
      StillKept(s, p, c, z, q);
      OneKept(s, p, c, q);
    } else {
      KeptNowhere(s, p, c, z);
    }
    hide Fresh, Spot, LateStore, KeptThere;
  }

  /** At most one place is kept in a word. */
  lemma OneKept(s: Fs, p: Pos, c: nat, q: Pos)
    requires Inv(s) && Spot(s, p, c) && KeptThere(s, p, c, q)
    ensures forall q': Pos :: KeptThere(s, p, c, q') ==> q' == q
  {
    forall q': Pos | KeptThere(s, p, c, q') ensures q' == q {
      if !p.Slot? {
        ContainerNamed(s, q);
        OneParent(s, q', Up(q));
      }
    }
  }

  lemma StillKept(s: Fs, p: Pos, c: nat, z: nat, q: Pos)
    requires Fresh(s, z) && Spot(s, p, c) && KeptThere(s, p, c, q)
    requires forall x: nat :: Used(s, x) && x != z && x != c ==> Named(s, x)
    ensures NoLeak(LateStore(s, p, c, z)) <==> Ptr(s, q) == 0
  {
    KeptExists(s, p, c, q);
    if !p.Slot? {
      SetPtrIsSetEntry(s, q, z);
      ContainerNamed(s, q);
      assert Named(s, c);
    }
    assert SetPtr(s, q, z) == LateStore(s, p, c, z);
    hide Fresh, Exists, Spot, LateStore, KeptThere, SetPtr, Ptr, Used;
    StoreIff(s, q, z);
  }

  lemma KeptExists(s: Fs, p: Pos, c: nat, q: Pos)
    requires Inv(s) && Spot(s, p, c) && KeptThere(s, p, c, q)
    ensures Exists(s, q) && (!q.Slot? ==> Container(s, q) < |s.blocks|)
  {
    if !p.Slot? {
      ContainerUsed(s, q);
      if q.Leaf? { assert Ptr(s, Slot(q.ino, 8)) != 0; }
    }
  }

  /** A store into a block that keeps no place changes no place. */
  lemma KeptNowhere(s: Fs, p: Pos, c: nat, z: nat)
    requires Fresh(s, z) && Spot(s, p, c) && forall q: Pos :: !KeptThere(s, p, c, q)
    ensures var r := LateStore(s, p, c, z);
            && !NoLeak(r) && Used(r, z) && !Named(r, z)
            && (forall q: Pos :: Ptr(r, q) == Ptr(s, q)) && (forall x: nat :: Used(r, x) == Used(s, x))
  {
    assert !p.Slot? by { assert p.Slot? ==> KeptThere(s, p, c, p); }
    var r := LateStore(s, p, c, z);
    forall q: Pos ensures Container(s, q) == c ==> KeptThere(s, p, c, AtWord(q, Index(p))) {
      ContainerNamed(s, q);
      if !q.Slot? { WordOfBlock(s, q, Index(p)); }
    }
    assert forall q: Pos :: Container(s, q) != c;
    assert z < 65536;
    SetEntryShape(s, c, Index(p), z);
    PtrsKept(s, r);
    hide Inv, Ptr, Used;
    assert forall q: Pos :: Ptr(r, q) == Ptr(s, q);
  }

  /** The place kept in word i of the block that keeps q. */
  function AtWord(q: Pos, i: nat): Pos {
    match q
    case Slot(ino, _) => Slot(ino, i)
    case Ind(ino, _) => Ind(ino, i)
    case Dind(ino, _) => Dind(ino, i)
    case Leaf(ino, k, _) => Leaf(ino, k, i)
  }

  lemma WordOfBlock(s: Fs, q: Pos, i: nat)
    requires !q.Slot?
    ensures !AtWord(q, i).Slot? && Container(s, AtWord(q, i)) == Container(s, q) && Index(AtWord(q, i)) == i
  {
  }

  // ---------------------------------------------------------------- a writer asleep in new_block

  /** What the writer has in its hands: the new zone, and the buffer of the block that keeps p. */
  function InHands(p: Pos, c: nat, z: nat): Hands {
    if p.Slot? then map[z := {}] else map[z := {}, c := {Up(p)}]
  }

  /** With c held since the look, nobody can have given it another use: the store leaks no zone exactly when c still
      keeps the place and the place is still empty. A second look at the word alone would not tell. */
  lemma HeldStoreIff(s: Fs, p: Pos, c: nat, z: nat)
    requires Settled(s, InHands(p, c, z)) && Spot(s, p, c) && c != z
    ensures NoLeak(LateStore(s, p, c, z)) <==> Container(s, p) == c && LateLook(s, p, c) == 0
    ensures Container(s, p) != c ==> forall x :: x in {c, z} ==>
              Used(LateStore(s, p, c, z), x) && !Named(LateStore(s, p, c, z), x)
  {
    HeldIsFresh(s, p, c, z);
    LateStoreIff(s, p, c, z);
    forall q: Pos | KeptThere(s, p, c, q) ensures q == p { OnlyOwnPlace(s, p, c, z, q); }
    if Container(s, p) == c {
      assert KeptThere(s, p, c, p);
      LookIsPtr(s, p, c);
    } else {
      assert forall q: Pos :: !KeptThere(s, p, c, q);
      KeptNowhere(s, p, c, z);
      GoneIsUnnamed(s, p, c, z);
    }
    hide Settled, Spot, LateStore, LateLook, Fresh, Container, Ptr, Used, NoLeak;
  }

  lemma HeldIsFresh(s: Fs, p: Pos, c: nat, z: nat)
    requires Settled(s, InHands(p, c, z)) && Spot(s, p, c) && c != z
    ensures Fresh(s, z) && forall x: nat :: Used(s, x) && x != z && x != c ==> Named(s, x)
  {
    assert z in InHands(p, c, z) && InHands(p, c, z)[z] == {};
    assert InHand(s, z, {});
    hide Inv, Used, Ptr;
  }

  lemma OnlyOwnPlace(s: Fs, p: Pos, c: nat, z: nat, q: Pos)
    requires Settled(s, InHands(p, c, z)) && Spot(s, p, c) && c != z && KeptThere(s, p, c, q)
    ensures q == p
  {
    if !p.Slot? {
      ContainerNamed(s, q);
      assert InHand(s, c, {Up(p)});
      assert Up(q) == Up(p);
    }
    hide Inv, Used, Ptr;
  }

  lemma LookIsPtr(s: Fs, p: Pos, c: nat)
    requires Spot(s, p, c) && Container(s, p) == c
    ensures LateLook(s, p, c) == Ptr(s, p)
  {
  }

  lemma GoneIsUnnamed(s: Fs, p: Pos, c: nat, z: nat)
    requires Settled(s, InHands(p, c, z)) && Spot(s, p, c) && c != z && Container(s, p) != c
    ensures Used(s, c) && !Named(s, c)
  {
    hide Settled, Used, Ptr, Container, InHand;
    if p.Slot? {
      SlotHasNone(s, p);
    } else {
      HeldInHand(s, p, c, z);
      UpIsContainer(s, p);
      OnlyUpNames(s, c, Up(p));
    }
  }

  lemma SlotHasNone(s: Fs, p: Pos)
    requires p.Slot?
    ensures Container(s, p) == 0
  {
  }

  lemma HeldInHand(s: Fs, p: Pos, c: nat, z: nat)
    requires Settled(s, InHands(p, c, z)) && !p.Slot? && c != z
    ensures InHand(s, c, {Up(p)})
  {
    assert c in InHands(p, c, z) && InHands(p, c, z)[c] == {Up(p)};
    hide InHand, Inv, Used, Ptr;
  }

  lemma OnlyUpNames(s: Fs, c: nat, u: Pos)
    requires InHand(s, c, {u}) && Ptr(s, u) != c
    ensures Used(s, c) && !Named(s, c)
  {
    hide Ptr;
    assert forall q: Pos :: Ptr(s, q) != c;
  }

  lemma UpIsContainer(s: Fs, p: Pos)
    requires !p.Slot?
    ensures Ptr(s, Up(p)) == Container(s, p)
  {
  }

  /** The state in which the writer goes to sleep: it holds the block that keeps the place, which is empty. */
  ghost predicate AtLook(s: Fs, p: Pos) {
    && Inv(s) && NoLeak(s) && Exists(s, p) && Ptr(s, p) == 0 && NewBlock(s).1 != 0
    && s.busy == (if p.Slot? then {} else {Container(s, p)})
  }

  lemma NowAsleep(s: Fs, p: Pos)
    requires AtLook(s, p)
    ensures var (r, z) := NewBlock(s);
            && Inv(r) && Settled(r, InHands(p, Container(s, p), z))
            && Spot(r, p, Container(s, p)) && Container(s, p) != z
  {
    NewBlockEffect(s);
    SameContainer(s, NewBlock(s).0, p);
    FreshIsNowhere(s, NewBlock(s).1);
    if !p.Slot? { ContainerUsed(s, p); }
    SlotRoom(s, NewBlock(s).0, p);
    NewlySettled(s, NewBlock(s).0, p, NewBlock(s).1);
    hide NewBlock, Ptr, Settled, Named;
  }

  lemma SlotRoom(s: Fs, r: Fs, p: Pos)
    requires Inv(s) && Exists(s, p) && r.inodes == s.inodes && |r.blocks| == |s.blocks|
    ensures Spot(r, p, Container(s, p))
  {
    if !p.Slot? { ContainerUsed(s, p); }
  }

  lemma NewlySettled(s: Fs, r: Fs, p: Pos, z: nat)
    requires Inv(s) && Inv(r) && NoLeak(s) && Exists(s, p) && r.busy == s.busy && |r.blocks| == |s.blocks|
    requires s.busy == (if p.Slot? then {} else {Container(s, p)})
    requires z < |s.blocks| && r.blocks[z] == ZeroBlock() && !Used(s, z)
    requires forall q: Pos :: Ptr(r, q) == Ptr(s, q) && Ptr(s, q) != z
    requires forall x: nat :: Used(r, x) == (Used(s, x) || x == z)
    ensures Settled(r, InHands(p, Container(s, p), z))
  {
    var c := Container(s, p);
    var E := InHands(p, c, z);
    if !p.Slot? {
      ContainerUsed(s, p);
      HandsFull(s, r, p, z);
    }
    assert E == if p.Slot? then map[z := {}] else map[z := {}, c := {Up(p)}];
    hide Inv, Ptr, Container, Used;
    forall x: nat | Used(r, x) && x !in E ensures Named(r, x) {
      assert Named(s, x);
      var q: Pos :| Ptr(s, q) == x;
      assert Ptr(r, q) == x;
    }
    assert InHand(r, z, {});
  }

  lemma HandsFull(s: Fs, r: Fs, p: Pos, z: nat)
    requires Inv(s) && !p.Slot? && Container(s, p) != 0 && |r.blocks| == |s.blocks|
    requires (forall q: Pos :: Ptr(r, q) == Ptr(s, q)) && forall x: nat :: Used(s, x) ==> Used(r, x)
    ensures InHand(r, Container(s, p), {Up(p)})
  {
    ContainerUsed(s, p);
    UpIsContainer(s, p);
  }

  /** For every run of whole calls of others while the writer sleeps in new_block: its store leaks no zone exactly
      when the block it holds still keeps the place and nobody has filled it. */
  lemma LateRunIff(s: Fs, p: Pos, ops: seq<Op>)
    requires AtLook(s, p) && Inv(NewBlock(s).0) && EnabledRun(NewBlock(s).0, ops)
    ensures var c, z, r := Container(s, p), NewBlock(s).1, Run(NewBlock(s).0, ops);
            Spot(r, p, c) && (NoLeak(LateStore(r, p, c, z)) <==> Container(r, p) == c && LateLook(r, p, c) == 0)
  {
    NowAsleep(s, p);
    var c := Container(s, p);
    var (s1, z) := NewBlock(s);
    RunSettled(s1, ops, InHands(p, c, z));
    RunKeepsShape(s1, ops);
    var r := Run(s1, ops);
    SpotKept(s1, r, p, c);
    hide *;
    HeldStoreIff(r, p, c, z);
  }

  lemma SpotKept(s: Fs, r: Fs, p: Pos, c: nat)
    requires Spot(s, p, c) && Inv(r) && |r.inodes| == |s.inodes| && |r.blocks| == |s.blocks|
    ensures Spot(r, p, c)
  {
  }

  /** One such run: the file is truncated while the writer sleeps. The word is still empty, and still both the new
      zone and the block that the writer holds are lost. */
  lemma TruncatedMeanwhile(s: Fs, p: Pos)
    requires AtLook(s, p) && !p.Slot? && s.inodes[p.ino].kind != Other
    ensures var c, z := Container(s, p), NewBlock(s).1;
            && Inv(NewBlock(s).0) && EnabledRun(NewBlock(s).0, [Drop(p.ino)])
            && var r := Run(NewBlock(s).0, [Drop(p.ino)]);
            && Spot(r, p, c) && LateLook(r, p, c) == 0
            && var t := LateStore(r, p, c, z);
            && Used(t, z) && !Named(t, z) && Used(t, c) && !Named(t, c)
  {
    var c := Container(s, p);
    var (s1, z) := NewBlock(s);
    NowAsleep(s, p);
    DropEmpties(s, s1, p);
    var r := Run(s1, [Drop(p.ino)]);
    RunSettled(s1, [Drop(p.ino)], InHands(p, c, z));
    SpotKept(s1, r, p, c);
    HeldStoreIff(r, p, c, z);
    hide *;
  }

  lemma DropEmpties(s: Fs, s1: Fs, p: Pos)
    requires AtLook(s, p) && !p.Slot? && s.inodes[p.ino].kind != Other && s1 == NewBlock(s).0
    ensures Inv(s1) && EnabledRun(s1, [Drop(p.ino)])
    ensures var r := Run(s1, [Drop(p.ino)]);
            && |r.inodes| == |s1.inodes| && |r.blocks| == |s1.blocks|
            && Container(r, p) == 0 && 0 < Container(s, p) < |r.blocks| && Index(p) < PTRS
            && Entry(r, Container(s, p), Index(p)) == 0
  {
    NewBlockEffect(s);
    ContainerUsed(s, p);
    SameContainer(s, s1, p);
    TruncateEffect(s1, p.ino);
    TreeIsNamed(s1, p.ino);
    var r := TruncateFile(s1, p.ino);
    assert [Drop(p.ino)][1..] == [];
    assert Step(s1, Drop(p.ino)).0 == r;
    assert Run(r, []) == r;
    UpIsContainer(r, p);
    ContainerIs(s1, p, Up(p));
    assert Ptr(s1, p) == 0 && r.blocks == s1.blocks;
    hide NewBlock, TruncateFile;
  }

  // ---------------------------------------------------------------- the store when the block still keeps the place

  /** What the store changes. */
  ghost predicate Stored(s: Fs, p: Pos, z: nat, r: Fs) {
    && (forall x: nat :: Used(r, x) == Used(s, x))
    && (forall q: Pos :: Ptr(r, q) == if q == p then z else if Under(p, q) then 0 else Ptr(s, q))
  }

  lemma StoreEffect(s: Fs, p: Pos, z: nat)
    requires Fresh(s, z) && Exists(s, p)
    ensures !p.Slot? ==> Container(s, p) < |s.blocks|
    ensures Stored(s, p, z, SetPtr(s, p, z))
  {
    assert forall q: Pos :: Ptr(s, q) != z;
    SetPtrOver(s, p, z);
    SetPtrUses(s, p, z);
    hide *;
  }

  /** The store leaks no zone exactly when the place is still empty. */
  lemma StoreIff(s: Fs, p: Pos, z: nat)
    requires Fresh(s, z) && Exists(s, p) && (forall x: nat :: Used(s, x) && x != z ==> Named(s, x))
    ensures !p.Slot? ==> Container(s, p) < |s.blocks|
    ensures NoLeak(SetPtr(s, p, z)) <==> Ptr(s, p) == 0
  {
    StoreEffect(s, p, z);
    UsedNonZero(s);
    hide Used, SetPtr, Ptr, Exists, Container, Stored;
    if Ptr(s, p) == 0 { StoreNamesAll(s, p, z, SetPtr(s, p, z)); } else { Unnamed(s, p, z, SetPtr(s, p, z)); }
  }

  lemma UsedNonZero(s: Fs)
    requires Inv(s)
    ensures forall x: nat :: Used(s, x) ==> x != 0
  {
  }

  lemma StoreNamesAll(s: Fs, p: Pos, z: nat, r: Fs)
    requires Ptr(s, p) == 0 && (forall x: nat :: Used(s, x) && x != z ==> Named(s, x))
    requires Stored(s, p, z, r) && forall x: nat :: Used(s, x) ==> x != 0
    ensures NoLeak(r)
  {
    forall x: nat | Used(r, x) ensures Named(r, x) {
      if x == z {
        assert Ptr(r, p) == z;
      } else {
        assert Named(s, x);
        var q: Pos :| Ptr(s, q) == x;
        if Under(p, q) { NothingUnder(s, p, q); }
        assert Ptr(r, q) == x;
      }
    }
  }

  lemma Unnamed(s: Fs, p: Pos, z: nat, r: Fs)
    requires Inv(s) && Ptr(s, p) != 0 && !Named(s, z)
    requires Stored(s, p, z, r)
    ensures Used(r, Ptr(s, p)) && !Named(r, Ptr(s, p)) && !NoLeak(r)
  {
    var y := Ptr(s, p);
    assert Used(s, y) && y != z;
    forall q: Pos ensures Ptr(r, q) != y {}
  }

  /** Two writers of one missing block, both past the look before either stores: the first one's zone is lost. */
  lemma TwoWritersLeak(s: Fs, p: Pos)
    requires Inv(s) && Exists(s, p) && Ptr(s, p) == 0 && NewBlock(s).1 != 0 && NewBlock(NewBlock(s).0).1 != 0
    ensures var a, b, s2 := NewBlock(s).1, NewBlock(NewBlock(s).0).1, NewBlock(NewBlock(s).0).0;
            && (!p.Slot? ==> Container(s2, p) < |s2.blocks| && Container(SetPtr(s2, p, a), p) < |s2.blocks|)
            && Used(SetPtr(SetPtr(s2, p, a), p, b), a) && !Named(SetPtr(SetPtr(s2, p, a), p, b), a)
  {
    TwoFresh(s, p);
    hide NewBlock, Inv, Exists, Ptr, Container, SetPtr, Used, Named, Fresh;
    var a, b, s2 := NewBlock(s).1, NewBlock(NewBlock(s).0).1, NewBlock(NewBlock(s).0).0;
    FirstStore(s2, p, a, b);
    SecondStore(SetPtr(s2, p, a), p, a, b);
  }

  /** What the two calls of new_block return. */
  lemma TwoFresh(s: Fs, p: Pos)
    requires Inv(s) && Exists(s, p) && NewBlock(s).1 != 0 && NewBlock(NewBlock(s).0).1 != 0
    ensures var a, b, s2 := NewBlock(s).1, NewBlock(NewBlock(s).0).1, NewBlock(NewBlock(s).0).0;
            && Fresh(s2, a) && Fresh(s2, b) && a != b && a != 0
            && Exists(s2, p) && Ptr(s2, p) == Ptr(s, p) && Container(s2, p) == Container(s, p)
            && (p.Slot? ==> p.ino < |s2.inodes| && p.k < |s2.inodes[p.ino].zones|)
  {
    var (s1, a) := NewBlock(s);
    var (s2, b) := NewBlock(s1);
    NewBlockEffect(s);
    NewBlockEffect(s1);
    FreshIsNowhere(s, a);
    FreshIsNowhere(s1, b);
    SameContainer(s, s2, p);
    hide NewBlock;
  }

  lemma FirstStore(s: Fs, p: Pos, a: nat, b: nat)
    requires Fresh(s, a) && Fresh(s, b) && a != b && Exists(s, p) && Ptr(s, p) == 0
    ensures !p.Slot? ==> Container(s, p) < |s.blocks|
    ensures var r := SetPtr(s, p, a);
            Fresh(r, b) && Exists(r, p) && Ptr(r, p) == a && Container(r, p) == Container(s, p)
                && |r.blocks| == |s.blocks|
  {
    assert forall q: Pos :: Ptr(s, q) != a && Ptr(s, q) != b;
    if !p.Slot? { ContainerUsed(s, p); }
    SetPtrKeepsInv(s, p, a);
    ParentKept(s, SetPtr(s, p, a), p);
    hide Inv, Ptr;
  }

  lemma ParentKept(s: Fs, r: Fs, p: Pos)
    requires forall q: Pos :: q != p ==> Ptr(r, q) == Ptr(s, q)
    ensures Container(r, p) == Container(s, p)
  {
  }

  lemma SecondStore(s: Fs, p: Pos, a: nat, b: nat)
    requires Fresh(s, b) && Exists(s, p) && Ptr(s, p) == a != 0
    requires !p.Slot? ==> Container(s, p) < |s.blocks|
    ensures Used(SetPtr(s, p, b), a) && !Named(SetPtr(s, p, b), a)
  {
    StoreEffect(s, p, b);
    hide SetPtr, Exists, Container;
    Unnamed(s, p, b, SetPtr(s, p, b));
  }
}
