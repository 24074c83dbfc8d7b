/** malloc and free_s as whole calls, and what holds over every run of them. */
module BucketRuns {
  import opened Basics
  import opened BucketHeap
  import opened BucketSteps

  /** The first bucket that is large enough, or BUCKETS. */
  function BucketFor(len: nat, k: nat): (r: nat)
    requires k <= BUCKETS
    ensures k <= r <= BUCKETS && (r < BUCKETS ==> Size(r) >= len)
    decreases BUCKETS - k
  {
    if k == BUCKETS || Size(k) >= len then k else BucketFor(len, k + 1)
  }

  /** Objects of up to a page can be had, and no smaller bucket would do. */
  lemma BucketIsSmallest(len: nat)
    ensures BucketFor(len, 0) == BUCKETS <==> len > PAGE
    ensures forall k :: 0 <= k < BucketFor(len, 0) ==> Size(k) < len
  {
    assert forall k :: 0 <= k < BUCKETS ==> Size(k) <= Size(8);
    SmallerBuckets(len, 0);
  }

  lemma {:induction false} SmallerBuckets(len: nat, k: nat)
    requires k <= BUCKETS
    ensures forall i :: k <= i < BucketFor(len, k) ==> Size(i) < len
    decreases BUCKETS - k
  {
    if k < BUCKETS && Size(k) < len { SmallerBuckets(len, k + 1); }
  }

  /** The position in a chain of the first bucket with a free object, or the chain's length. */
  function FirstFree(ds: seq<Desc>, q: seq<int>): (r: nat)
    ensures r <= |q| && (r < |q| ==> 0 <= q[r] < |ds| && ds[q[r]].freeptr != 0)
    ensures forall i :: 0 <= i < r && 0 <= q[i] < |ds| ==> ds[q[i]].freeptr == 0
  {
    if q == [] || (0 <= q[0] < |ds| && ds[q[0]].freeptr != 0) then 0 else 1 + FirstFree(ds, q[1..])
  }

  /** get_free_page would have to be called with no page left. */
  ghost predicate OutOfMemory(h: Heap) {
    h.pool == [] || (h.spare == NONE && |h.pool| == 1)
  }

  ghost predicate MallocPanics(h: Heap, a: Ledger, len: nat)
    requires Inv(h, a)
  {
    var k := BucketFor(len, 0);
    k == BUCKETS || (FirstFree(h.desc, a.lists[k]) == |a.lists[k]| && OutOfMemory(h))
  }

  /** No bucket of the size that malloc would use has a free object. */
  ghost predicate NoneFree(a: Ledger, k: nat)
    requires |a.free| == |a.home|
  {
    forall d :: InUse(a, d) && a.home[d] == k ==> a.free[d] == []
  }

  /** How many pages malloc takes when there is none: one, and one for descriptors if none is spare. */
  function PagesWanted(h: Heap): nat {
    if h.spare == NONE then 2 else 1
  }

  /** A free pointer is null exactly in a full bucket. */
  lemma FreeptrIff(h: Heap, a: Ledger, d: int)
    requires Inv(h, a) && InUse(a, d)
    ensures h.desc[d].freeptr != 0 <==> a.free[d] != []
  {
    assert DescOk(h, a, d, a.home[d]);
    hide Divided, Pages, ListOk;
  }

  lemma ChainHasAll(h: Heap, a: Ledger, k: nat, d: int)
    requires Inv(h, a) && k < BUCKETS
    ensures d in a.lists[k] <==> InUse(a, d) && a.home[d] == k
  {
    assert ListOk(h, a, k);
    hide Descs, Pages;
  }

  /** malloc panics exactly for more than a page, or when no bucket of the right size has a free object and there are
      too few pages for another. */
  lemma PanicsIff(h: Heap, a: Ledger, len: nat)
    requires Good(h, a)
    ensures MallocPanics(h, a, len) <==> len > PAGE || (NoneFree(a, BucketFor(len, 0)) && |h.pool| < PagesWanted(h))
  {
    BucketIsSmallest(len);
    var k := BucketFor(len, 0);
    if k < BUCKETS { FullIff(h, a, k); }
    hide Inv;
  }

  lemma FullIff(h: Heap, a: Ledger, k: nat)
    requires Inv(h, a) && k < BUCKETS
    ensures FirstFree(h.desc, a.lists[k]) == |a.lists[k]| <==> NoneFree(a, k)
  {
    var q := a.lists[k];
    var i := FirstFree(h.desc, q);
    hide Inv;
    if i < |q| {
      ChainHasAll(h, a, k, q[i]);
      assert q[i] in q;
      FreeptrIff(h, a, q[i]);
    } else {
      forall d | InUse(a, d) && a.home[d] == k ensures a.free[d] == [] {
        ChainHasAll(h, a, k, d);
        FreeptrIff(h, a, d);
        var j :| 0 <= j < |q| && q[j] == d;
      }
    }
  }

  /** The state in which malloc takes the object, and the descriptor it takes it from. */
  ghost function Ready(h: Heap, a: Ledger, len: nat): (r: (Heap, Ledger, int))
    requires Good(h, a) && !MallocPanics(h, a, len)
    ensures Inv(r.0, r.1) && NoIdle(r.1, r.2) && InUse(r.1, r.2) && r.1.free[r.2] != []
    ensures len <= Size(r.1.home[r.2])
  {
    var k := BucketFor(len, 0);
    var i := FirstFree(h.desc, a.lists[k]);
    if i < |a.lists[k]| then
      var d := a.lists[k][i];
      assert ListOk(h, a, k) && d in a.lists[k];
      assert DescOk(h, a, d, k);
      (h, a, d)
    else FilledFor(h, a, k)
  }

  /** init_bucket_desc is called when no descriptor is spare. */
  ghost function WithSpare(h: Heap, a: Ledger): (r: (Heap, Ledger))
    requires Good(h, a) && !OutOfMemory(h)
    ensures Good(r.0, r.1) && r.0.spare != NONE && r.0.pool != []
  {
    if h.spare == NONE then SparesKeeps(h, a); (Spares(h), Spared(a)) else (h, a)
  }

  ghost function FilledFor(h: Heap, a: Ledger, k: nat): (r: (Heap, Ledger, int))
    requires Good(h, a) && !OutOfMemory(h) && k < BUCKETS
    ensures Inv(r.0, r.1) && NoIdle(r.1, r.2) && InUse(r.1, r.2) && r.1.free[r.2] != [] && r.1.home[r.2] == k
  {
    var s := WithSpare(h, a);
    FillKeeps(s.0, s.1, k);
    (Filled(s.0, k), Opened(s.1, k, s.0.spare), s.0.spare)
  }

  /** malloc. */
  ghost function Malloced(h: Heap, a: Ledger, len: nat): (r: (Heap, Ledger))
    requires Good(h, a) && !MallocPanics(h, a, len)
    ensures Good(r.0, r.1)
  {
    var s := Ready(h, a, len);
    TakeKeeps(s.0, s.1, s.2, len);
    (Take(s.0, s.2), Taken(s.1, s.2, len))
  }

  /** free_s of object j of descriptor d. */
  ghost function Freed(h: Heap, a: Ledger, d: int, j: nat): (r: (Heap, Ledger))
    requires Good(h, a) && InUse(a, d) && j in a.live[d]
    ensures Good(r.0, r.1)
  {
    PutKeeps(h, a, d, j);
    var h1, a1 := Put(h, d, Obj(h.desc[d].page, a.home[d], j)), Returned(a, d, j);
    assert DescOk(h1, a1, d, a.home[d]);
    if h1.desc[d].refcnt == 0 then
      RetireKeeps(h1, a1, d);
      (Retired(h1, a1, d), Closed(a1, d))
    else (h1, a1)
  }

  // ---------------------------------------------------------------- what one call changes

  /** Live object j of descriptor d is the same object, at the same place, in both states. */
  ghost predicate SameObject(h: Heap, a: Ledger, h2: Heap, a2: Ledger, d: int, j: nat)
    requires Shape(h, a) && Shape(h2, a2)
  {
    && InUse(a, d) && j in a.live[d] && InUse(a2, d) && j in a2.live[d]
    && a2.live[d][j] == a.live[d][j] && a2.home[d] == a.home[d] && h2.desc[d].page == h.desc[d].page
  }

  /** Everything live before is still live, at its place, with its contents. */
  ghost predicate Untouched(h: Heap, a: Ledger, h2: Heap, a2: Ledger, d: int, j: nat)
    requires Shape(h, a) && Shape(h2, a2)
  {
    && SameObject(h, a, h2, a2, d, j)
    && (forall x :: Inside(h, a, d, j, x) ==> 0 <= x < |h.mem| && x < |h2.mem| && h2.mem[x] == h.mem[x])
  }

  /** malloc hands out an object that was not live, long enough, and touches no live object. */
  lemma MallocEffect(h: Heap, a: Ledger, len: nat)
    requires Good(h, a) && !MallocPanics(h, a, len)
    ensures var h2, a2, d := Malloced(h, a, len).0, Malloced(h, a, len).1, Ready(h, a, len).2;
            && InUse(a2, d)
            && (exists j :: j in a2.live[d] && a2.live[d][j] == len && (InUse(a, d) ==> j !in a.live[d])
                            && Ready(h, a, len).0.desc[d].freeptr == Obj(h2.desc[d].page, a2.home[d], j))
            && (forall e, i :: InUse(a, e) && i in a.live[e] ==> Untouched(h, a, h2, a2, e, i))
            && (forall e, i :: InUse(a2, e) && i in a2.live[e] ==> e == d || (InUse(a, e) && i in a.live[e]))
  {
    var s := Ready(h, a, len);
    var d, j := s.2, s.1.free[s.2][0];
    TakeKeeps(s.0, s.1, d, len);
    TakeEffect(s.0, s.1, d, len);
    ReadyEffect(h, a, len);
    var h2, a2 := Take(s.0, d), Taken(s.1, d, len);
    hide Inv, Ready;
    assert InUse(a, d) && j in a.live[d] ==> Untouched(h, a, s.0, s.1, d, j);
    assert Malloced(h, a, len) == (h2, a2);
    hide Malloced, Take, Taken;
    forall e, i | InUse(a, e) && i in a.live[e] ensures Untouched(h, a, h2, a2, e, i) {
      assert Untouched(h, a, s.0, s.1, e, i);
      assert Untouched(s.0, s.1, h2, a2, e, i);
    }
  }

  lemma TakeEffect(h: Heap, a: Ledger, d: int, len: nat)
    requires Inv(h, a) && InUse(a, d) && a.free[d] != [] && len <= Size(a.home[d])
    requires 0 <= h.desc[d].freeptr < |h.mem| && a.free[d][0] !in a.live[d] && Inv(Take(h, d), Taken(a, d, len))
    ensures var h2, a2, j := Take(h, d), Taken(a, d, len), a.free[d][0];
            && InUse(a2, d) && j in a2.live[d] && a2.live[d][j] == len
            && h2.desc[d].page == h.desc[d].page && a2.home == a.home
            && (forall e, i :: InUse(a, e) && i in a.live[e] ==> Untouched(h, a, h2, a2, e, i))
            && (forall e, i :: InUse(a2, e) && i in a2.live[e] ==> e == d || (InUse(a, e) && i in a.live[e]))
  {
    var h2, a2 := Take(h, d), Taken(a, d, len);
    forall e, i | InUse(a, e) && i in a.live[e] ensures Untouched(h, a, h2, a2, e, i) {
      OwnPage(h, a, e, i);
      hide Inv, Divided, DescOk, ListOk, Pages;
    }
  }

  lemma ReadyEffect(h: Heap, a: Ledger, len: nat)
    requires Good(h, a) && !MallocPanics(h, a, len)
    ensures var s := Ready(h, a, len);
            && (forall e, i :: InUse(a, e) && i in a.live[e] ==> Untouched(h, a, s.0, s.1, e, i))
            && (forall e, i :: InUse(s.1, e) && i in s.1.live[e] ==> InUse(a, e) && i in a.live[e])
  {
    var k := BucketFor(len, 0);
    if FirstFree(h.desc, a.lists[k]) == |a.lists[k]| {
      FilledEffect(h, a, k);
    } else {
      hide Inv;
      forall e, i | InUse(a, e) && i in a.live[e] ensures Untouched(h, a, h, a, e, i) { OwnPage(h, a, e, i); }
    }
  }

  /** A live object lies in memory. */
  lemma OwnPage(h: Heap, a: Ledger, e: int, i: nat)
    requires Inv(h, a)
    ensures forall x :: Inside(h, a, e, i, x) ==> h.desc[e].page <= x < h.desc[e].page + PAGE <= |h.mem|
  {
    forall x | Inside(h, a, e, i, x) ensures h.desc[e].page <= x < h.desc[e].page + PAGE <= |h.mem| {
      LiveApart(h, a, e, i, e, i, x);
    }
  }

  lemma FilledEffect(h: Heap, a: Ledger, k: nat)
    requires Good(h, a) && !OutOfMemory(h) && k < BUCKETS
    ensures var s := FilledFor(h, a, k);
            && (forall e, i :: InUse(a, e) && i in a.live[e] ==> Untouched(h, a, s.0, s.1, e, i))
            && (forall e, i :: InUse(s.1, e) && i in s.1.live[e] ==> InUse(a, e) && i in a.live[e])
  {
    var s := WithSpare(h, a);
    var r := FilledFor(h, a, k);
    FillKeeps(s.0, s.1, k);
    SpareEffect(h, a);
    SpareHead(s.0, s.1);
    assert s.1.live[s.0.spare] == map[];
    forall e, i | InUse(a, e) && i in a.live[e] ensures Untouched(h, a, r.0, r.1, e, i) {
      FillTouchesNone(s.0, s.1, k, e, i);
      hide Inv, FilledFor, WithSpare;
      assert Untouched(h, a, s.0, s.1, e, i);
    }
  }

  lemma SpareEffect(h: Heap, a: Ledger)
    requires Good(h, a) && !OutOfMemory(h)
    ensures var s := WithSpare(h, a);
            && (forall e, i :: InUse(a, e) && i in a.live[e] ==> Untouched(h, a, s.0, s.1, e, i))
            && (forall e, i :: InUse(s.1, e) && i in s.1.live[e] ==> InUse(a, e) && i in a.live[e])
  {
    var s := WithSpare(h, a);
    forall e, i | InUse(a, e) && i in a.live[e] ensures Untouched(h, a, s.0, s.1, e, i) {
      if h.spare == NONE { SparesTouchNone(h, a, e, i); } else { OwnPage(h, a, e, i); }
    }
    assert forall e :: InUse(s.1, e) ==> InUse(a, e) && s.1.live[e] == a.live[e];
  }

  lemma SparesTouchNone(h: Heap, a: Ledger, e: int, i: nat)
    requires Inv(h, a) && h.pool != [] && InUse(a, e) && i in a.live[e]
    ensures Shape(Spares(h), Spared(a)) && Untouched(h, a, Spares(h), Spared(a), e, i)
  {
    OwnPage(h, a, e, i);
    assert h.pool[0] in h.pool;
    assert DescOk(h, a, e, a.home[e]);
    OtherPage(h.mem, Spares(h).mem, h.pool[0], h.desc[e].page);
  }

  lemma FillTouchesNone(h: Heap, a: Ledger, k: nat, e: int, i: nat)
    requires Good(h, a) && k < BUCKETS && h.spare != NONE && h.pool != [] && InUse(a, e) && i in a.live[e]
    ensures 0 <= h.spare < |h.desc| && a.lists[SPARE] != [] && PageOk(h, h.pool[0])
    ensures Shape(Filled(h, k), Opened(a, k, h.spare)) && Untouched(h, a, Filled(h, k), Opened(a, k, h.spare), e, i)
  {
    SpareHead(h, a);
    FillKeeps(h, a, k);
    OwnPage(h, a, e, i);
    assert h.pool[0] in h.pool;
    assert DescOk(h, a, e, a.home[e]);
    FilledOut(h, k);
    OtherPage(h.mem, Filled(h, k).mem, h.pool[0], h.desc[e].page);
  }

  /** free_s ends that one object, touches no other, and gives its page back exactly when it was the last one there. */
  lemma FreeEffect(h: Heap, a: Ledger, d: int, j: nat)
    requires Good(h, a) && InUse(a, d) && j in a.live[d]
    ensures var h2, a2 := Freed(h, a, d, j).0, Freed(h, a, d, j).1;
            && !(InUse(a2, d) && j in a2.live[d])
            && (forall e, i :: InUse(a, e) && i in a.live[e] && (e, i) != (d, j) ==> Untouched(h, a, h2, a2, e, i))
            && (forall e, i :: InUse(a2, e) && i in a2.live[e] ==> InUse(a, e) && i in a.live[e])
            && h2.pool == h.pool + (if a.live[d].Keys == {j} then [h.desc[d].page] else [])
            && (InUse(a2, d) <==> a.live[d].Keys != {j})
  {
    var o := Obj(h.desc[d].page, a.home[d], j);
    PutKeeps(h, a, d, j);
    var h1, a1 := Put(h, d, o), Returned(a, d, j);
    var r := Freed(h, a, d, j);
    LastOne(h, a, d, j);
    if h1.desc[d].refcnt == 0 { RetireEffect(h1, a1, d); }
    hide Inv;
    forall e, i | InUse(a, e) && i in a.live[e] && (e, i) != (d, j) ensures Untouched(h, a, r.0, r.1, e, i) {
      PutTouchesNone(h, a, d, j, e, i);
      assert Untouched(h, a, h1, a1, e, i);
      assert h1.desc[d].refcnt == 0 ==> Untouched(h1, a1, r.0, r.1, e, i);
      hide Freed, Put, Returned, Retired, Closed;
    }
  }

  /** The count reaches 0 exactly with the last live object of the page. */
  lemma LastOne(h: Heap, a: Ledger, d: int, j: nat)
    requires Inv(h, a) && InUse(a, d) && j in a.live[d]
    ensures 0 < Obj(h.desc[d].page, a.home[d], j) < |h.mem|
    ensures Put(h, d, Obj(h.desc[d].page, a.home[d], j)).desc[d].refcnt == 0 <==> a.live[d].Keys == {j}
    ensures Returned(a, d, j).live[d] == map[] <==> a.live[d].Keys == {j}
  {
    PutKeeps(h, a, d, j);
    var h1, a1 := Put(h, d, Obj(h.desc[d].page, a.home[d], j)), Returned(a, d, j);
    assert DescOk(h1, a1, d, a.home[d]);
    hide Inv, Divided, FreeChain;
    assert a1.live[d].Keys == a.live[d].Keys - {j};
    assert h1.desc[d].refcnt == |a1.live[d].Keys|;
  }

  lemma RetireEffect(h: Heap, a: Ledger, d: int)
    requires Inv(h, a) && InUse(a, d) && a.live[d] == map[] && NoIdle(a, d)
    ensures d in a.lists[a.home[d]] && forall e :: e in a.lists[a.home[d]] ==> 0 <= e < |h.desc|
    ensures var h2, a2 := Retired(h, a, d), Closed(a, d);
            && Good(h2, a2) && !InUse(a2, d) && h2.pool == h.pool + [h.desc[d].page]
            && (forall e, i :: InUse(a, e) && i in a.live[e] ==> Untouched(h, a, h2, a2, e, i))
            && (forall e, i :: InUse(a2, e) && i in a2.live[e] ==> InUse(a, e) && i in a.live[e])
  {
    RetireKeeps(h, a, d);
    var h2, a2 := Retired(h, a, d), Closed(a, d);
    forall e, i | InUse(a, e) && i in a.live[e] ensures Untouched(h, a, h2, a2, e, i) {
      OwnPage(h, a, e, i);
      hide Inv, Divided, DescOk, ListOk, Pages;
    }
  }

  lemma PutTouchesNone(h: Heap, a: Ledger, d: int, j: nat, e: int, i: nat)
    requires Inv(h, a) && InUse(a, d) && j in a.live[d] && InUse(a, e) && i in a.live[e] && (e, i) != (d, j)
    ensures 0 < Obj(h.desc[d].page, a.home[d], j) < |h.mem|
    ensures Shape(h, Returned(a, d, j)) && Untouched(h, a, Put(h, d, Obj(h.desc[d].page, a.home[d], j)),
              Returned(a, d, j), e, i)
  {
    var o := Obj(h.desc[d].page, a.home[d], j);
    PutKeeps(h, a, d, j);
    OwnPage(h, a, e, i);
    forall x | Inside(h, a, e, i, x) ensures x != o { LiveApart(h, a, e, i, d, j, x); }
  }

  /** Where malloc finds the object. With one free in a bucket of the right size, it takes the first of the first such
      bucket on the chain, and no page; otherwise it takes just the pages it needs. */
  lemma MallocWhere(h: Heap, a: Ledger, len: nat)
    requires Good(h, a) && !MallocPanics(h, a, len)
    ensures BucketFor(len, 0) < BUCKETS
    ensures var k, h2, a2 := BucketFor(len, 0), Malloced(h, a, len).0, Malloced(h, a, len).1;
            if NoneFree(a, k) then |h2.pool| == |h.pool| - PagesWanted(h) && !InUse(a, Ready(h, a, len).2)
            else
              && h2.pool == h.pool && h2.spare == h.spare && h2.dpages == h.dpages && a2.home == a.home
              && exists i: nat :: i < |a.lists[k]| && Ready(h, a, len).2 == a.lists[k][i] && FirstWithFree(h, a, k, i)
  {
    var k := BucketFor(len, 0);
    FullIff(h, a, k);
    var s := Ready(h, a, len);
    if NoneFree(a, k) {
      NewPages(h, a, k);
      TakeKeeps(s.0, s.1, s.2, len);
    } else {
      var i := FirstFree(h.desc, a.lists[k]);
      FirstIs(h, a, k, i);
      TakeKeeps(s.0, s.1, s.2, len);
    }
    hide Inv, Good;
  }

  ghost predicate FirstWithFree(h: Heap, a: Ledger, k: nat, i: nat)
    requires k < |a.lists| && i < |a.lists[k]| && |a.free| == |a.home|
  {
    var q := a.lists[k];
    && 0 <= q[i] < |a.free| && a.free[q[i]] != []
    && forall j :: 0 <= j < i ==> 0 <= q[j] < |a.free| && a.free[q[j]] == []
  }

  lemma FirstIs(h: Heap, a: Ledger, k: nat, i: nat)
    requires Inv(h, a) && k < BUCKETS && i == FirstFree(h.desc, a.lists[k]) < |a.lists[k]|
    ensures FirstWithFree(h, a, k, i)
  {
    var q := a.lists[k];
    hide Inv;
    forall j | 0 <= j <= i ensures 0 <= q[j] < |a.free| && (a.free[q[j]] != [] <==> j == i) {
      ChainHasAll(h, a, k, q[j]);
      assert q[j] in q;
      FreeptrIff(h, a, q[j]);
    }
  }

  lemma NewPages(h: Heap, a: Ledger, k: nat)
    requires Good(h, a) && !OutOfMemory(h) && k < BUCKETS
    ensures var s := FilledFor(h, a, k); |s.0.pool| == |h.pool| - PagesWanted(h) && !InUse(a, s.2)
  {
    var s := WithSpare(h, a);
    FillKeeps(s.0, s.1, k);
    SpareHead(s.0, s.1);
    hide Inv;
  }

  // ---------------------------------------------------------------- nothing is lost

  ghost function Sum(lists: seq<seq<int>>, n: nat): nat
    requires n <= |lists|
  {
    if n == 0 then 0 else Sum(lists, n - 1) + |lists[n - 1]|
  }

  lemma {:induction false} SumUpdate(lists: seq<seq<int>>, n: nat, k: nat, q: seq<int>)
    requires n <= |lists| && k < |lists|
    ensures Sum(lists[k := q], n) == Sum(lists, n) + if k < n then |q| - |lists[k]| else 0
  {
    if n > 0 { SumUpdate(lists, n - 1, k, q); }
  }

  /** Every descriptor is on one of the lists, and every one of the total pages is in the pool, a bucket's or
      the descriptors'. */
  ghost predicate Conserved(h: Heap, a: Ledger, total: nat) {
    && |a.lists| == SPARE + 1
    && Sum(a.lists, SPARE + 1) == |h.desc|
    && |h.pool| + Sum(a.lists, SPARE) + |h.dpages| == total
  }

  lemma MallocConserves(h: Heap, a: Ledger, len: nat, total: nat)
    requires Good(h, a) && !MallocPanics(h, a, len) && Conserved(h, a, total)
    ensures Conserved(Malloced(h, a, len).0, Malloced(h, a, len).1, total)
  {
    var k := BucketFor(len, 0);
    if FirstFree(h.desc, a.lists[k]) == |a.lists[k]| { FilledConserves(h, a, k, total); }
    hide Inv, WithSpare, FilledFor;
  }

  lemma FilledConserves(h: Heap, a: Ledger, k: nat, total: nat)
    requires Good(h, a) && !OutOfMemory(h) && k < BUCKETS && Conserved(h, a, total)
    ensures Conserved(FilledFor(h, a, k).0, FilledFor(h, a, k).1, total)
  {
    var s := WithSpare(h, a);
    SumUpdate(a.lists, SPARE, SPARE, s.1.lists[SPARE]);
    assert h.spare != NONE || s.1.lists == a.lists[SPARE := s.1.lists[SPARE]];
    assert Conserved(s.0, s.1, total);
    FillKeeps(s.0, s.1, k);
    hide Inv, WithSpare;
    var b := s.1.lists[SPARE := s.1.lists[SPARE][1..]];
    SumUpdate(s.1.lists, SPARE, SPARE, b[SPARE]);
    SumUpdate(b, SPARE, k, [s.0.spare] + b[k]);
  }

  lemma FreeConserves(h: Heap, a: Ledger, d: int, j: nat, total: nat)
    requires Good(h, a) && InUse(a, d) && j in a.live[d] && Conserved(h, a, total)
    ensures Conserved(Freed(h, a, d, j).0, Freed(h, a, d, j).1, total)
  {
    var k := a.home[d];
    InList(h, a, d);
    var b := a.lists[k := Without(a.lists[k], d)];
    SumUpdate(a.lists, SPARE, k, b[k]);
    SumUpdate(b, SPARE, SPARE, [d] + b[SPARE]);
    hide Inv, Conserved;
    FreedConserves(h, a, d, j, total);
  }

  lemma FreedConserves(h: Heap, a: Ledger, d: int, j: nat, total: nat)
    requires Good(h, a) && InUse(a, d) && j in a.live[d] && Conserved(h, a, total) && d in a.lists[a.home[d]]
    requires var b := a.lists[a.home[d] := Without(a.lists[a.home[d]], d)];
             && Sum(b, SPARE) == Sum(a.lists, SPARE) - 1 && Sum(b[SPARE := [d] + b[SPARE]], SPARE) == Sum(b, SPARE)
    ensures Conserved(Freed(h, a, d, j).0, Freed(h, a, d, j).1, total)
  {
    var k, a2 := a.home[d], Freed(h, a, d, j).1;
    var b := a.lists[k := Without(a.lists[k], d)];
    hide Inv;
    assert a2.lists == a.lists || a2.lists == b[SPARE := [d] + b[SPARE]];
  }

  // ---------------------------------------------------------------- runs

  /** A call, or a caller's own write of v at address x inside its object j of descriptor d. */
  datatype Event = Malloc(len: nat) | Free(d: int, j: nat) | Scribble(d: int, j: nat, x: int, v: int)

  /** Callers free and write only objects they hold, and malloc does not panic. */
  ghost predicate Legal(h: Heap, a: Ledger, e: Event)
    requires Good(h, a)
  {
    match e
    case Malloc(len) => !MallocPanics(h, a, len)
    case Free(d, j) => InUse(a, d) && j in a.live[d]
    case Scribble(d, j, x, v) => Inside(h, a, d, j, x)
  }

  ghost function Step(h: Heap, a: Ledger, e: Event): (r: (Heap, Ledger))
    requires Good(h, a) && Legal(h, a, e)
    ensures Good(r.0, r.1)
  {
    match e
    case Malloc(len) => Malloced(h, a, len)
    case Free(d, j) => Freed(h, a, d, j)
    case Scribble(d, j, x, v) => ScribbleKeeps(h, a, d, j, x, v); (h.(mem := h.mem[x := v]), a)
  }

  ghost predicate LegalRun(h: Heap, a: Ledger, es: seq<Event>)
    requires Good(h, a)
    decreases |es|
  {
    es == [] || (Legal(h, a, es[0]) && var s := Step(h, a, es[0]); LegalRun(s.0, s.1, es[1..]))
  }

  ghost function Run(h: Heap, a: Ledger, es: seq<Event>): (r: (Heap, Ledger))
    requires Good(h, a) && LegalRun(h, a, es)
    ensures Good(r.0, r.1)
    decreases |es|
  {
    if es == [] then (h, a) else var s := Step(h, a, es[0]); Run(s.0, s.1, es[1..])
  }

  /** The value last written at x by its holder, v0 if nobody wrote. */
  function LastWrite(es: seq<Event>, x: int, v0: int): int {
    if es == [] then v0
    else LastWrite(es[1..], x, if es[0].Scribble? && es[0].x == x then es[0].v else v0)
  }

  lemma StepKeepsObject(h: Heap, a: Ledger, e: Event, d: int, j: nat, x: int)
    requires Good(h, a) && Legal(h, a, e) && Inside(h, a, d, j, x) && e != Free(d, j)
    ensures var s := Step(h, a, e); SameObject(h, a, s.0, s.1, d, j) && 0 <= x < |h.mem| && x < |s.0.mem|
                                    && s.0.mem[x] == if e.Scribble? && e.x == x then e.v else h.mem[x]
  {
    LiveApart(h, a, d, j, d, j, x);
    match e
    case Malloc(len) =>
      MallocEffect(h, a, len);
      hide Inv, Malloced;
      assert Untouched(h, a, Step(h, a, e).0, Step(h, a, e).1, d, j);
    case Free(f, i) =>
      FreeEffect(h, a, f, i);
      hide Inv, Freed;
      assert Untouched(h, a, Step(h, a, e).0, Step(h, a, e).1, d, j);
    case Scribble(f, i, y, v) => LiveApart(h, a, f, i, f, i, y); hide Inv;
  }

  /** Over every run, an object that is not freed stays where it is and keeps what its holder last wrote in it. */
  lemma {:induction false} RunKeepsObject(h: Heap, a: Ledger, es: seq<Event>, d: int, j: nat, x: int)
    requires Good(h, a) && LegalRun(h, a, es) && Inside(h, a, d, j, x) && Free(d, j) !in es
    ensures var s := Run(h, a, es); SameObject(h, a, s.0, s.1, d, j) && 0 <= x < |h.mem| && x < |s.0.mem|
                                    && s.0.mem[x] == LastWrite(es, x, h.mem[x])
    decreases |es|
  {
    LiveApart(h, a, d, j, d, j, x);
    hide Inv, Step;
    if es != [] {
      assert es[0] in es;
      StepKeepsObject(h, a, es[0], d, j, x);
      var s := Step(h, a, es[0]);
      RunKeepsObject(s.0, s.1, es[1..], d, j, x);
    }
  }

  /** In every state of every run: each bucket page has a live object; its count is the number of these and its
      free list, which is acyclic and ends, has the rest; live objects are long enough and no address lies in
      two of them. */
  lemma RunIsSafe(h: Heap, a: Ledger, es: seq<Event>)
    requires Good(h, a) && LegalRun(h, a, es)
    ensures var s := Run(h, a, es);
            && (forall d :: InUse(s.1, d) ==>
                  && s.0.desc[d].refcnt == |s.1.live[d]| > 0
                  && s.0.desc[d].refcnt + |s.1.free[d]| == PAGE / s.0.desc[d].size
                  && FreeChain(s.0.mem, s.0.desc[d].page, s.1.home[d], s.0.desc[d].freeptr, s.1.free[d])
                        && NoDup(s.1.free[d])
                  && forall j :: j in s.1.live[d] ==> s.1.live[d][j] <= s.0.desc[d].size && j !in s.1.free[d])
            && (forall d, j, e, i, x :: Inside(s.0, s.1, d, j, x) && Inside(s.0, s.1, e, i, x) ==> d == e && i == j)
  {
    var s := Run(h, a, es);
    hide Run, LegalRun;
    forall d | InUse(s.1, d)
      ensures s.0.desc[d].refcnt == |s.1.live[d]| > 0 && s.0.desc[d].refcnt + |s.1.free[d]| == PAGE / s.0.desc[d].size
    {
      assert DescOk(s.0, s.1, d, s.1.home[d]);
      CountIsQuotient(s.1.home[d]);
      assert s.1.live[d] != map[];
    }
    forall d, j, e, i, x | Inside(s.0, s.1, d, j, x) && Inside(s.0, s.1, e, i, x) ensures d == e && i == j {
      LiveApart(s.0, s.1, d, j, e, i, x);
    }
  }

  lemma CountIsQuotient(k: nat)
    requires k < BUCKETS
    ensures Count(k) == PAGE / Size(k)
  {
  }

  /** Over every run no descriptor and no page is lost. */
  lemma {:induction false} RunConserves(h: Heap, a: Ledger, es: seq<Event>, total: nat)
    requires Good(h, a) && LegalRun(h, a, es) && Conserved(h, a, total)
    ensures Conserved(Run(h, a, es).0, Run(h, a, es).1, total)
    decreases |es|
  {
    hide Inv, Conserved, Malloced, Freed, MallocPanics;
    if es != [] {
      var s := Step(h, a, es[0]);
      match es[0] {
        case Malloc(len) => MallocConserves(h, a, len, total);
        case Free(d, j) => FreeConserves(h, a, d, j, total);
        case Scribble(d, j, x, v) => LiveApart(h, a, d, j, d, j, x); ScribbleConserves(h, a, d, j, x, v, total);
      }
      RunConserves(s.0, s.1, es[1..], total);
    }
  }

  lemma ScribbleConserves(h: Heap, a: Ledger, d: int, j: nat, x: int, v: int, total: nat)
    requires Conserved(h, a, total) && 0 <= x < |h.mem|
    ensures Conserved(h.(mem := h.mem[x := v]), a, total)
  {
  }

  /** At the start no descriptor exists and every page is in the pool. */
  function AtStart(mem: seq<int>, pool: seq<int>): Heap {
    Heap([], seq(BUCKETS, _ => NONE), NONE, mem, pool, [])
  }

  function NothingYet(): Ledger {
    Ledger(seq(SPARE + 1, _ => []), [], [], [])
  }

  lemma StartIsGood(mem: seq<int>, pool: seq<int>)
    requires NoDup(pool) && forall p :: p in pool ==> PageOk(AtStart(mem, pool), p)
    ensures Good(AtStart(mem, pool), NothingYet()) && Conserved(AtStart(mem, pool), NothingYet(), |pool|)
  {
    var h, a := AtStart(mem, pool), NothingYet();
    assert forall k :: 0 <= k <= SPARE ==> ListOk(h, a, k);
    EmptySum(a.lists, SPARE + 1);
    EmptySum(a.lists, SPARE);
  }

  lemma {:induction false} EmptySum(lists: seq<seq<int>>, n: nat)
    requires n <= |lists| && forall k :: 0 <= k < |lists| ==> lists[k] == []
    ensures Sum(lists, n) == 0
  {
    if n > 0 { EmptySum(lists, n - 1); }
  }
}
