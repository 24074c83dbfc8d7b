/** The steps of malloc and free_s, and what each keeps. */
module BucketSteps {
  import opened Basics
  import opened BucketHeap

  // ---------------------------------------------------------------- frames

  /** The memory of a page. */
  ghost predicate SameIn(mem: seq<int>, mem2: seq<int>, page: int) {
    |mem2| == |mem| && forall x :: 0 <= x < |mem| && page <= x < page + PAGE ==> mem2[x] == mem[x]
  }

  ghost predicate SameOut(mem: seq<int>, mem2: seq<int>, page: int) {
    |mem2| == |mem| && forall x :: 0 <= x < |mem| && !(page <= x < page + PAGE) ==> mem2[x] == mem[x]
  }

  lemma OtherPage(mem: seq<int>, mem2: seq<int>, page: int, other: int)
    requires SameOut(mem, mem2, page) && page % PAGE == 0 && other % PAGE == 0 && page != other
    ensures SameIn(mem, mem2, other)
  {
    PagesApart(page, other);
  }

  /** A descriptor whose page, free list and counts are untouched. */
  lemma DescFrame(h: Heap, a: Ledger, h2: Heap, a2: Ledger, d: int, k: nat)
    requires Shape(h, a) && Shape(h2, a2) && 0 <= d < |h.desc| && d < |h2.desc| && k < BUCKETS
    requires DescOk(h, a, d, k)
    requires h2.desc[d] == h.desc[d].(next := h2.desc[d].next) && a2.free[d] == a.free[d] && a2.live[d] == a.live[d]
    requires SameIn(h.mem, h2.mem, h.desc[d].page)
    ensures DescOk(h2, a2, d, k)
  {
    var p := h.desc[d].page;
    forall j | j in a.free[d] ensures p <= Obj(p, k, j) < p + PAGE { ObjBounds(p, k, j); }
    FreeFrame(h.mem, h2.mem, p, k, h.desc[d].freeptr, a.free[d]);
  }

  // ---------------------------------------------------------------- taking an object off a free list

  /** malloc, lines 168-170. */
  function Take(h: Heap, d: int): Heap
    requires 0 <= d < |h.desc| && 0 <= h.desc[d].freeptr < |h.mem|
  {
    var b := h.desc[d];
    h.(desc := h.desc[d := b.(freeptr := h.mem[b.freeptr], refcnt := b.refcnt + 1)])
  }

  function WithLive(m: map<nat, nat>, j: nat, len: nat): map<nat, nat> {
    m[j := len]
  }

  function Taken(a: Ledger, d: int, len: nat): Ledger
    requires 0 <= d < |a.free| == |a.live| && a.free[d] != []
  {
    a.(free := a.free[d := a.free[d][1..]], live := a.live[d := WithLive(a.live[d], a.free[d][0], len)])
  }

  lemma TakeKeeps(h: Heap, a: Ledger, d: int, len: nat)
    requires Inv(h, a) && InUse(a, d) && a.free[d] != [] && len <= Size(a.home[d])
    ensures h.desc[d].freeptr == Obj(h.desc[d].page, a.home[d], a.free[d][0]) && 0 < h.desc[d].freeptr < |h.mem|
    ensures a.free[d][0] !in a.live[d]
    ensures Inv(Take(h, d), Taken(a, d, len))
    ensures NoIdle(a, d) ==> Good(Take(h, d), Taken(a, d, len))
  {
    assert DescOk(h, a, d, a.home[d]);
    assert a.free[d][0] in a.free[d];
    var h2, a2 := Take(h, d), Taken(a, d, len);
    TakeLists(h, a, d, len);
    TakeDesc(h, a, d, len);
    hide Linked, FreeChain, Divided;
    forall e | 0 <= e < |h.desc| && e != d && a.home[e] != SPARE ensures DescOk(h2, a2, e, a.home[e]) {
      DescFrame(h, a, h2, a2, e, a.home[e]);
    }
    assert a2.live[d] != map[] by { assert a.free[d][0] in a2.live[d]; }
  }

  lemma TakeLists(h: Heap, a: Ledger, d: int, len: nat)
    requires Inv(h, a) && InUse(a, d) && a.free[d] != [] && 0 <= h.desc[d].freeptr < |h.mem|
    ensures Shape(Take(h, d), Taken(a, d, len))
    ensures forall k :: 0 <= k <= SPARE ==> ListOk(Take(h, d), Taken(a, d, len), k)
  {
    hide Linked, Descs, Pages;
    var h2, a2 := Take(h, d), Taken(a, d, len);
    forall k | 0 <= k <= SPARE ensures ListOk(h2, a2, k) {
      assert ListOk(h, a, k);
      LinkedFrame(Nexts(h.desc), Nexts(h2.desc), Head(h, k), a.lists[k]);
    }
  }

  lemma TakeDesc(h: Heap, a: Ledger, d: int, len: nat)
    requires Shape(h, a) && InUse(a, d) && DescOk(h, a, d, a.home[d]) && a.free[d] != [] && len <= Size(a.home[d])
    requires Shape(Take(h, d), Taken(a, d, len))
    ensures DescOk(Take(h, d), Taken(a, d, len), d, a.home[d])
  {
    var h2, a2 := Take(h, d), Taken(a, d, len);
    var j, q, m := a.free[d][0], a2.free[d], a2.live[d];
    assert j in a.free[d];
    assert forall i :: i in q ==> i in a.free[d];
    assert j !in q by {
      forall i | 0 <= i < |q| ensures q[i] != j { assert q[i] == a.free[d][i + 1]; }
    }
    assert forall i :: i in a.free[d] ==> i == j || i in q by {
      forall i | i in a.free[d] ensures i == j || i in q {
        var n :| 0 <= n < |a.free[d]| && a.free[d][n] == i;
        assert n > 0 ==> q[n - 1] == i;
      }
    }
    assert Divided(q, m, a.home[d]);
    assert m.Keys == a.live[d].Keys + {j};
  }

  // ---------------------------------------------------------------- get_free_page

  /** The page handed out has been cleared. */
  function Zeroed(mem: seq<int>, page: int): (r: seq<int>)
    ensures SameOut(mem, r, page)
    ensures forall x :: page <= x < page + PAGE && 0 <= x < |mem| ==> r[x] == 0
  {
    seq(|mem|, x requires 0 <= x < |mem| => if page <= x < page + PAGE then 0 else mem[x])
  }

  // ---------------------------------------------------------------- init_bucket_desc

  function FreshDescs(n: int, spare: int): seq<Desc> {
    seq(PER_PAGE, i => Desc(0, if i < PER_PAGE - 1 then n + i + 1 else spare, 0, 0, 0))
  }

  function Spares(h: Heap): Heap
    requires h.pool != []
  {
    var n := |h.desc|;
    h.(desc := h.desc + FreshDescs(n, h.spare), spare := n, mem := Zeroed(h.mem, h.pool[0]),
       pool := h.pool[1..], dpages := h.dpages + [h.pool[0]])
  }

  function Numbers(n: int, m: nat): seq<int> {
    seq(m, i => n + i)
  }

  function Spared(a: Ledger): Ledger
    requires |a.lists| == SPARE + 1
  {
    a.(lists := a.lists[SPARE := Numbers(|a.home|, PER_PAGE) + a.lists[SPARE]],
       home := a.home + seq(PER_PAGE, _ => SPARE),
       free := a.free + seq(PER_PAGE, _ => []),
       live := a.live + seq(PER_PAGE, _ => map[]))
  }

  /** The fresh descriptors from the i-th on lead to the old spare list. */
  lemma {:induction false} FreshLinked(next: seq<int>, n: nat, i: nat, spare: int, q: seq<int>)
    requires i <= PER_PAGE && |next| == n + PER_PAGE
    requires forall d :: n <= d < |next| ==> next[d] == if d + 1 < |next| then d + 1 else spare
    requires Linked(next, spare, q)
    ensures Linked(next, if i < PER_PAGE then n + i else spare, Numbers(n + i, PER_PAGE - i) + q)
    decreases PER_PAGE - i
  {
    var r := Numbers(n + i, PER_PAGE - i) + q;
    if i == PER_PAGE {
      assert r == q;
    } else {
      FreshLinked(next, n, i + 1, spare, q);
      assert r[1..] == Numbers(n + i + 1, PER_PAGE - i - 1) + q;
      assert r[0] == n + i;
      assert next[n + i] == if i + 1 < PER_PAGE then n + i + 1 else spare;
    }
  }

  lemma SparesKeeps(h: Heap, a: Ledger)
    requires Inv(h, a) && h.pool != []
    ensures Inv(Spares(h), Spared(a)) && (forall e :: NoIdle(a, e) ==> NoIdle(Spared(a), e))
    ensures |Spares(h).desc| == |h.desc| + PER_PAGE && Spares(h).spare == |h.desc|
  {
    var h2, a2 := Spares(h), Spared(a);
    assert h.pool[0] in h.pool;
    SparesLists(h, a);
    SparesPages(h, a);
    hide Linked, FreeChain, Divided, ListOk, NoDup, Zeroed;
    forall e | 0 <= e < |h2.desc| && a2.home[e] != SPARE ensures DescOk(h2, a2, e, a2.home[e]) {
      assert e < |h.desc| && h.desc[e].page !in h.pool && InUse(a, e);
      assert DescOk(h, a, e, a.home[e]);
      OtherPage(h.mem, h2.mem, h.pool[0], h.desc[e].page);
      DescFrame(h, a, h2, a2, e, a.home[e]);
    }
  }

  lemma SparesLists(h: Heap, a: Ledger)
    requires Inv(h, a) && h.pool != []
    ensures Shape(Spares(h), Spared(a))
    ensures forall k :: 0 <= k <= SPARE ==> ListOk(Spares(h), Spared(a), k)
  {
    hide Linked, Descs, Pages;
    var h2, a2, n := Spares(h), Spared(a), |h.desc|;
    forall k | 0 <= k < SPARE ensures ListOk(h2, a2, k) {
      assert ListOk(h, a, k);
      LinkedFrame(Nexts(h.desc), Nexts(h2.desc), Head(h, k), a.lists[k]);
    }
    assert ListOk(h, a, SPARE);
    LinkedFrame(Nexts(h.desc), Nexts(h2.desc), h.spare, a.lists[SPARE]);
    FreshLinked(Nexts(h2.desc), n, 0, h.spare, a.lists[SPARE]);
    var q, r := a2.lists[SPARE], Numbers(n, PER_PAGE);
    assert forall d :: d in r <==> n <= d < n + PER_PAGE by {
      forall d | n <= d < n + PER_PAGE ensures d in r { assert r[d - n] == d; }
    }
    assert forall d :: d in q <==> d in r || d in a.lists[SPARE];
    assert NoDup(q) by {
      forall i, j | 0 <= i < j < |q| ensures q[i] != q[j] {
        if i < PER_PAGE <= j { assert q[i] == n + i && q[j] == a.lists[SPARE][j - PER_PAGE] && q[j] in a.lists[SPARE]; }
      }
    }
  }

  lemma SparesPages(h: Heap, a: Ledger)
    requires Inv(h, a) && h.pool != [] && Shape(Spares(h), Spared(a))
    ensures Pages(Spares(h), Spared(a))
  {
    hide Linked, Descs, ListOk;
    var h2, a2 := Spares(h), Spared(a);
    assert forall d :: InUse(a2, d) <==> InUse(a, d);
    assert h.pool[0] in h.pool;
    assert h.pool[0] !in h2.pool;
    assert forall p :: p in h2.pool ==> p in h.pool;
    forall i, j | 0 <= i < j < |h2.dpages| ensures h2.dpages[i] != h2.dpages[j] {
      assert i < |h.dpages| && h.dpages[i] in h.dpages;
    }
  }

  // ---------------------------------------------------------------- a new bucket

  /** The page after the first i turns of the loop that links its objects; turn Count(k) is the final 0. */
  function Thread(mem: seq<int>, page: int, k: nat, i: nat): (r: seq<int>)
    requires k < BUCKETS && i <= Count(k) && 0 <= page && page + PAGE <= |mem|
    ensures SameOut(mem, r, page)
    decreases i
  {
    if i == 0 then mem
    else
      ObjBounds(page, k, i - 1);
      Thread(mem, page, k, i - 1)[Obj(page, k, i - 1) := if i < Count(k) then Obj(page, k, i) else 0]
  }

  lemma {:induction false} ThreadWord(mem: seq<int>, page: int, k: nat, i: nat, j: nat)
    requires k < BUCKETS && j < i <= Count(k) && 0 <= page && page + PAGE <= |mem|
    ensures 0 <= Obj(page, k, j) < |mem|
    ensures Thread(mem, page, k, i)[Obj(page, k, j)] == if j + 1 < Count(k) then Obj(page, k, j + 1) else 0
    decreases i
  {
    ObjBounds(page, k, j);
    ObjBounds(page, k, i - 1);
    if j < i - 1 {
      ObjApart(page, k, j, i - 1);
      ThreadWord(mem, page, k, i - 1, j);
    }
  }

  function UpTo(i: nat, n: nat): seq<nat>
    requires i <= n
  {
    seq(n - i, x requires 0 <= x => i + x)
  }

  /** The linked page is a free list of all its objects. */
  lemma {:induction false} ThreadIsChain(mem: seq<int>, page: int, k: nat, i: nat)
    requires k < BUCKETS && i <= Count(k) && 0 < page && page + PAGE <= |mem|
    ensures FreeChain(Thread(mem, page, k, Count(k)), page, k,
                      if i < Count(k) then Obj(page, k, i) else 0, UpTo(i, Count(k)))
    decreases Count(k) - i
  {
    hide Thread, Obj, Size;
    if i < Count(k) {
      ObjBounds(page, k, i);
      ThreadWord(mem, page, k, Count(k), i);
      ThreadIsChain(mem, page, k, i + 1);
      assert UpTo(i, Count(k))[1..] == UpTo(i + 1, Count(k));
    }
  }

  /** malloc, lines 152-166. */
  function Filled(h: Heap, k: nat): Heap
    requires k < BUCKETS && |h.dir| == BUCKETS && h.pool != [] && 0 <= h.spare < |h.desc|
    requires 0 <= h.pool[0] && h.pool[0] + PAGE <= |h.mem|
  {
    var p, d := h.pool[0], h.spare;
    h.(desc := h.desc[d := Desc(p, h.dir[k], p, 0, Size(k))], dir := h.dir[k := d], spare := h.desc[d].next,
       mem := Thread(Zeroed(h.mem, p), p, k, Count(k)), pool := h.pool[1..])
  }

  function Opened(a: Ledger, k: nat, d: int): Ledger
    requires k < BUCKETS && |a.lists| == SPARE + 1 && a.lists[SPARE] != [] && 0 <= d < |a.home| == |a.free|
  {
    a.(lists := a.lists[SPARE := a.lists[SPARE][1..]][k := [d] + a.lists[k]],
       home := a.home[d := k], free := a.free[d := UpTo(0, Count(k))])
  }

  lemma SpareHead(h: Heap, a: Ledger)
    requires Inv(h, a)
    ensures h.spare == NONE <==> a.lists[SPARE] == []
    ensures h.spare != NONE ==> 0 <= h.spare < |h.desc| && h.spare == a.lists[SPARE][0] && a.home[h.spare] == SPARE
  {
    assert ListOk(h, a, SPARE);
    if a.lists[SPARE] != [] { assert a.lists[SPARE][0] in a.lists[SPARE]; }
  }

  lemma FillKeeps(h: Heap, a: Ledger, k: nat)
    requires Inv(h, a) && NoIdle(a, NONE) && k < BUCKETS && h.spare != NONE && h.pool != []
    ensures 0 <= h.spare < |h.desc| && a.lists[SPARE] != [] && PageOk(h, h.pool[0])
    ensures var h2, a2, d := Filled(h, k), Opened(a, k, h.spare), h.spare;
            && Inv(h2, a2) && NoIdle(a2, d) && InUse(a2, d) && a2.home[d] == k && a2.free[d] != [] && a2.live == a.live
  {
    SpareHead(h, a);
    assert h.pool[0] in h.pool;
    var h2, a2, d := Filled(h, k), Opened(a, k, h.spare), h.spare;
    FillLists(h, a, k);
    FillDesc(h, a, k);
    FillPages(h, a, k);
    hide Linked, FreeChain, Divided, ListOk, NoDup, Thread, Zeroed, Pages;
    forall e | 0 <= e < |h.desc| && e != d && a.home[e] != SPARE ensures DescOk(h2, a2, e, a.home[e]) {
      FillOther(h, a, k, e);
    }
    assert forall e :: InUse(a2, e) <==> InUse(a, e) || e == d;
  }

  lemma FillOther(h: Heap, a: Ledger, k: nat, e: int)
    requires Inv(h, a) && k < BUCKETS && h.pool != [] && 0 <= h.spare < |h.desc| && a.lists[SPARE] != []
    requires PageOk(h, h.pool[0]) && InUse(a, e) && e != h.spare && Shape(Filled(h, k), Opened(a, k, h.spare))
    ensures DescOk(Filled(h, k), Opened(a, k, h.spare), e, a.home[e])
  {
    assert h.desc[e].page !in h.pool;
    assert DescOk(h, a, e, a.home[e]);
    FilledOut(h, k);
    OtherPage(h.mem, Filled(h, k).mem, h.pool[0], h.desc[e].page);
    hide Linked, FreeChain, Divided, ListOk, NoDup, Thread, Zeroed, Pages, Descs, SameIn, SameOut;
    DescFrame(h, a, Filled(h, k), Opened(a, k, h.spare), e, a.home[e]);
  }

  lemma FilledOut(h: Heap, k: nat)
    requires k < BUCKETS && |h.dir| == BUCKETS && h.pool != [] && 0 <= h.spare < |h.desc|
    requires PageOk(h, h.pool[0])
    ensures SameOut(h.mem, Filled(h, k).mem, h.pool[0])
  {
  }

  lemma FillDesc(h: Heap, a: Ledger, k: nat)
    requires Shape(h, a) && k < BUCKETS && h.pool != [] && PageOk(h, h.pool[0])
    requires 0 <= h.spare < |h.desc| && a.lists[SPARE] != [] && a.live[h.spare] == map[]
    requires Shape(Filled(h, k), Opened(a, k, h.spare))
    ensures DescOk(Filled(h, k), Opened(a, k, h.spare), h.spare, k)
  {
    var p := h.pool[0];
    ThreadIsChain(Zeroed(h.mem, p), p, k, 0);
    var q := UpTo(0, Count(k));
    forall j: nat | j < Count(k) ensures j in q { assert q[j] == j; }
    assert Obj(p, k, 0) == p;
  }

  lemma FillLists(h: Heap, a: Ledger, k: nat)
    requires Inv(h, a) && k < BUCKETS && h.spare != NONE && h.pool != []
    requires 0 <= h.spare < |h.desc| && a.lists[SPARE] != [] && PageOk(h, h.pool[0]) && a.home[h.spare] == SPARE
    requires h.spare == a.lists[SPARE][0]
    ensures Shape(Filled(h, k), Opened(a, k, h.spare))
    ensures forall i :: 0 <= i <= SPARE ==> ListOk(Filled(h, k), Opened(a, k, h.spare), i)
  {
    hide Descs, Pages, Thread, Zeroed;
    var h2, a2, d := Filled(h, k), Opened(a, k, h.spare), h.spare;
    assert ListOk(h, a, SPARE) && ListOk(h, a, k);
    PushOk(h, a, h2, a2, k, d);
    PopOk(h, a, h2, a2, SPARE, d);
    hide Linked;
    forall i | 0 <= i < SPARE && i != k ensures ListOk(h2, a2, i) {
      assert ListOk(h, a, i);
      LinkedFrame(Nexts(h.desc), Nexts(h2.desc), Head(h, i), a.lists[i]);
    }
  }

  /** Descriptor d, from another list, put at the head of list k. */
  lemma PushOk(h: Heap, a: Ledger, h2: Heap, a2: Ledger, k: nat, d: int)
    requires Shape(h, a) && Shape(h2, a2) && |h2.desc| == |h.desc| && k <= SPARE && ListOk(h, a, k)
    requires 0 <= d < |h.desc| && a.home[d] != k && a2.home == a.home[d := k]
    requires forall e :: 0 <= e < |h.desc| && a.home[e] == k ==> h2.desc[e].next == h.desc[e].next
    requires h2.desc[d].next == Head(h, k) && Head(h2, k) == d && a2.lists[k] == [d] + a.lists[k]
    ensures ListOk(h2, a2, k)
  {
    LinkedFrame(Nexts(h.desc), Nexts(h2.desc), Head(h, k), a.lists[k]);
    assert a2.lists[k][1..] == a.lists[k];
    assert d !in a.lists[k];
    assert NoDup(a2.lists[k]) by {
      forall i, j | 0 <= i < j < |a2.lists[k]| ensures a2.lists[k][i] != a2.lists[k][j] {
        assert a2.lists[k][j] == a.lists[k][j - 1] && a.lists[k][j - 1] in a.lists[k];
      }
    }
  }

  /** The head d of list k taken off to another list. */
  lemma PopOk(h: Heap, a: Ledger, h2: Heap, a2: Ledger, k: nat, d: int)
    requires Shape(h, a) && Shape(h2, a2) && |h2.desc| == |h.desc| && k <= SPARE && ListOk(h, a, k)
    requires a.lists[k] != [] && d == a.lists[k][0] && 0 <= d < |h.desc| && a2.home == a.home[d := a2.home[d]]
               && a2.home[d] != k
    requires forall e :: 0 <= e < |h.desc| && a.home[e] == k && e != d ==> h2.desc[e].next == h.desc[e].next
    requires Head(h2, k) == h.desc[d].next && a2.lists[k] == a.lists[k][1..]
    ensures ListOk(h2, a2, k)
  {
    var q := a.lists[k];
    assert d !in q[1..] by {
      forall i | 0 <= i < |q[1..]| ensures q[1..][i] != d { assert q[1..][i] == q[i + 1]; }
    }
    assert forall e :: e in q <==> e == d || e in q[1..] by {
      assert q == [d] + q[1..];
    }
    LinkedFrame(Nexts(h.desc), Nexts(h2.desc), h.desc[d].next, q[1..]);
  }

  lemma FillPages(h: Heap, a: Ledger, k: nat)
    requires Inv(h, a) && k < BUCKETS && h.spare != NONE && h.pool != []
    requires 0 <= h.spare < |h.desc| && a.lists[SPARE] != [] && PageOk(h, h.pool[0]) && a.home[h.spare] == SPARE
    requires Shape(Filled(h, k), Opened(a, k, h.spare))
    ensures Pages(Filled(h, k), Opened(a, k, h.spare))
  {
    hide Linked, Descs, ListOk, Thread, Zeroed;
    var h2, a2 := Filled(h, k), Opened(a, k, h.spare);
    assert forall d :: InUse(a2, d) <==> InUse(a, d) || d == h.spare;
    assert h.pool[0] in h.pool;
    assert h.pool[0] !in h2.pool;
    assert forall p :: p in h2.pool ==> p in h.pool;
  }

  // ---------------------------------------------------------------- putting an object back

  /** free_s, lines 205-207. */
  function Put(h: Heap, d: int, obj: int): Heap
    requires 0 <= d < |h.desc| && 0 <= obj < |h.mem|
  {
    var b := h.desc[d];
    h.(mem := h.mem[obj := b.freeptr], desc := h.desc[d := b.(freeptr := obj, refcnt := b.refcnt - 1)])
  }

  function WithoutLive(m: map<nat, nat>, j: nat): map<nat, nat> {
    m - {j}
  }

  function Returned(a: Ledger, d: int, j: nat): Ledger
    requires 0 <= d < |a.free| == |a.live|
  {
    a.(free := a.free[d := [j] + a.free[d]], live := a.live[d := WithoutLive(a.live[d], j)])
  }

  lemma PutKeeps(h: Heap, a: Ledger, d: int, j: nat)
    requires Inv(h, a) && InUse(a, d) && j in a.live[d]
    ensures 0 < Obj(h.desc[d].page, a.home[d], j) < |h.mem|
    ensures Inv(Put(h, d, Obj(h.desc[d].page, a.home[d], j)), Returned(a, d, j))
    ensures SameOut(h.mem, Put(h, d, Obj(h.desc[d].page, a.home[d], j)).mem, h.desc[d].page)
  {
    assert DescOk(h, a, d, a.home[d]);
    ObjBounds(h.desc[d].page, a.home[d], j);
    var o := Obj(h.desc[d].page, a.home[d], j);
    var h2, a2 := Put(h, d, o), Returned(a, d, j);
    assert Shape(h2, a2);
    PutDesc(h, a, d, j);
    forall k | 0 <= k <= SPARE ensures ListOk(h2, a2, k) {
      hide Linked, Descs, Pages;
      assert ListOk(h, a, k);
      LinkedFrame(Nexts(h.desc), Nexts(h2.desc), Head(h, k), a.lists[k]);
    }
    hide Linked, FreeChain, Divided, ListOk;
    forall e | 0 <= e < |h.desc| && e != d && a.home[e] != SPARE ensures DescOk(h2, a2, e, a.home[e]) {
      assert InUse(a, e);
      OtherPage(h.mem, h2.mem, h.desc[d].page, h.desc[e].page);
      DescFrame(h, a, h2, a2, e, a.home[e]);
    }
  }

  lemma PutDesc(h: Heap, a: Ledger, d: int, j: nat)
    requires Shape(h, a) && InUse(a, d) && DescOk(h, a, d, a.home[d]) && j in a.live[d]
    requires 0 < Obj(h.desc[d].page, a.home[d], j) < |h.mem|
    requires Shape(Put(h, d, Obj(h.desc[d].page, a.home[d], j)), Returned(a, d, j))
    ensures DescOk(Put(h, d, Obj(h.desc[d].page, a.home[d], j)), Returned(a, d, j), d, a.home[d])
  {
    var p, k := h.desc[d].page, a.home[d];
    var o := Obj(p, k, j);
    var h2, a2 := Put(h, d, o), Returned(a, d, j);
    var q := a2.free[d];
    assert q[1..] == a.free[d] && q[0] == j;
    forall i | i in a.free[d] ensures i != j && Obj(p, k, i) != o {
      if i < j { ObjApart(p, k, i, j); } else { ObjApart(p, k, j, i); }
    }
    FreeFrame(h.mem, h2.mem, p, k, h.desc[d].freeptr, a.free[d]);
    assert NoDup(q) by {
      forall i, n | 0 <= i < n < |q| ensures q[i] != q[n] {
        assert q[n] == a.free[d][n - 1] && a.free[d][n - 1] in a.free[d];
      }
    }
    assert forall i :: i in q <==> i == j || i in a.free[d];
    assert a2.live[d].Keys == a.live[d].Keys - {j};
  }

  // ---------------------------------------------------------------- returning an empty page

  /** free_s, lines 218-227: the bucket leaves its chain, its page is freed, its descriptor is spare. */
  function Retired(h: Heap, a: Ledger, d: int): Heap
    requires Shape(h, a) && InUse(a, d) && d in a.lists[a.home[d]]
    requires forall e :: e in a.lists[a.home[d]] ==> 0 <= e < |h.desc|
  {
    var k := a.home[d];
    var q := a.lists[k];
    var i, b := IndexOf(q, d), Before(q, d);
    var n := h.desc[d].next;
    var ds := if i == 0 then h.desc else h.desc[b := h.desc[b].(next := n)];
    h.(desc := ds[d := ds[d].(next := h.spare)], dir := if i == 0 then h.dir[k := n] else h.dir,
       spare := d, pool := h.pool + [h.desc[d].page])
  }

  function Closed(a: Ledger, d: int): Ledger
    requires |a.lists| == SPARE + 1 && 0 <= d < |a.home| && 0 <= a.home[d] < SPARE && d in a.lists[a.home[d]]
  {
    var k := a.home[d];
    a.(lists := a.lists[k := Without(a.lists[k], d)][SPARE := [d] + a.lists[SPARE]], home := a.home[d := SPARE])
  }

  lemma InList(h: Heap, a: Ledger, d: int)
    requires Inv(h, a) && InUse(a, d)
    ensures d in a.lists[a.home[d]] && forall e :: e in a.lists[a.home[d]] ==>
              0 <= e < |h.desc| && a.home[e] == a.home[d]
  {
    assert ListOk(h, a, a.home[d]);
  }

  lemma RetireKeeps(h: Heap, a: Ledger, d: int)
    requires Inv(h, a) && InUse(a, d) && a.live[d] == map[] && NoIdle(a, d)
    ensures d in a.lists[a.home[d]] && forall e :: e in a.lists[a.home[d]] ==> 0 <= e < |h.desc|
    ensures Good(Retired(h, a, d), Closed(a, d))
  {
    InList(h, a, d);
    var h2, a2 := Retired(h, a, d), Closed(a, d);
    assert Shape(h2, a2);
    RetireLists(h, a, d);
    RetirePages(h, a, d);
    hide Linked, FreeChain, Divided, ListOk, NoDup;
    forall e | 0 <= e < |h.desc| && a2.home[e] != SPARE ensures DescOk(h2, a2, e, a2.home[e]) {
      DescFrame(h, a, h2, a2, e, a.home[e]);
    }
  }

  lemma RetireLists(h: Heap, a: Ledger, d: int)
    requires Inv(h, a) && InUse(a, d) && d in a.lists[a.home[d]]
    requires forall e :: e in a.lists[a.home[d]] ==> 0 <= e < |h.desc| && a.home[e] == a.home[d]
    requires Shape(Retired(h, a, d), Closed(a, d))
    ensures forall k :: 0 <= k <= SPARE ==> ListOk(Retired(h, a, d), Closed(a, d), k)
  {
    hide Descs, Pages;
    var h2, a2, k := Retired(h, a, d), Closed(a, d), a.home[d];
    assert ListOk(h, a, k) && ListOk(h, a, SPARE);
    UnlinkOk(h, a, d);
    PushOk(h, a, h2, a2, SPARE, d);
    hide Linked;
    forall i | 0 <= i < SPARE && i != k ensures ListOk(h2, a2, i) {
      assert ListOk(h, a, i);
      LinkedFrame(Nexts(h.desc), Nexts(h2.desc), Head(h, i), a.lists[i]);
    }
  }

  lemma UnlinkOk(h: Heap, a: Ledger, d: int)
    requires Shape(h, a) && InUse(a, d) && ListOk(h, a, a.home[d]) && d in a.lists[a.home[d]]
    requires forall e :: e in a.lists[a.home[d]] ==> 0 <= e < |h.desc| && a.home[e] == a.home[d]
    requires Shape(Retired(h, a, d), Closed(a, d))
    ensures ListOk(Retired(h, a, d), Closed(a, d), a.home[d])
  {
    var h2, a2, k := Retired(h, a, d), Closed(a, d), a.home[d];
    var q := a.lists[k];
    var i := IndexOf(q, d);
    assert i > 0 ==> q[i - 1] in q;
    UnlinkAt(Nexts(h.desc), h.dir[k], q, i);
    WithoutHas(q, d);
    assert Linked(Nexts(h.desc), h.dir[k], q) && h.dir[k] == q[0];
    hide Linked;
    var ds := if i == 0 then h.desc else h.desc[q[i - 1] := h.desc[q[i - 1]].(next := h.desc[d].next)];
    assert i > 0 ==> Nexts(ds) == Nexts(h.desc)[q[i - 1] := h.desc[d].next];
    LinkedFrame(Nexts(ds), Nexts(h2.desc), Head(h2, k), Without(q, d));
  }

  lemma RetirePages(h: Heap, a: Ledger, d: int)
    requires Inv(h, a) && InUse(a, d) && d in a.lists[a.home[d]]
    requires forall e :: e in a.lists[a.home[d]] ==> 0 <= e < |h.desc| && a.home[e] == a.home[d]
    requires Shape(Retired(h, a, d), Closed(a, d))
    ensures Pages(Retired(h, a, d), Closed(a, d))
  {
    hide Linked, Divided, FreeChain, ListOk;
    var h2, a2, p := Retired(h, a, d), Closed(a, d), h.desc[d].page;
    assert DescOk(h, a, d, a.home[d]);
    assert forall e :: InUse(a2, e) <==> InUse(a, e) && e != d;
    assert forall e :: 0 <= e < |h.desc| ==> h2.desc[e].page == h.desc[e].page;
    forall i, j | 0 <= i < j < |h2.pool| ensures h2.pool[i] != h2.pool[j] {
      assert h2.pool[i] == h.pool[i] && h.pool[i] in h.pool;
    }
  }

  // ---------------------------------------------------------------- the caller's own writes

  /** A caller writes a word of a live object. */
  lemma ScribbleKeeps(h: Heap, a: Ledger, d: int, j: nat, x: int, v: int)
    requires Inv(h, a) && Inside(h, a, d, j, x)
    ensures 0 <= x < |h.mem| && Inv(h.(mem := h.mem[x := v]), a)
  {
    LiveApart(h, a, d, j, d, j, x);
    var h2 := h.(mem := h.mem[x := v]);
    forall k | 0 <= k <= SPARE ensures ListOk(h2, a, k) { assert ListOk(h, a, k); }
    forall e | 0 <= e < |h.desc| && a.home[e] != SPARE ensures DescOk(h2, a, e, a.home[e]) {
      assert DescOk(h, a, e, a.home[e]);
      forall i | i in a.free[e] ensures Obj(h.desc[e].page, a.home[e], i) != x {
        LiveApart(h, a, d, j, e, i, x);
      }
      FreeFrame(h.mem, h2.mem, h.desc[e].page, a.home[e], h.desc[e].freeptr, a.free[e]);
    }
  }
}
