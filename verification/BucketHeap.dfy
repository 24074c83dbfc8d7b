/** The bucket allocator of `lib/malloc.c`: descriptors on linked lists, free lists threaded through the free
    objects. */
module BucketHeap {
  import opened Basics

  const PAGE := 4096
  const BUCKETS := 9
  const SPARE := 9        // the number given to the list free_bucket_desc
  const PER_PAGE := 256   // descriptors in one page

  datatype Desc = Desc(page: int, next: int, freeptr: int, refcnt: int, size: int)

  /** mem[x] is the word at address x; pool holds the pages get_free_page can still hand out;
      dpages are the pages the descriptors live in. */
  datatype Heap = Heap(desc: seq<Desc>, dir: seq<int>, spare: int, mem: seq<int>, pool: seq<int>, dpages: seq<int>)

  /** What the lists hold. A descriptor d is on list home[d]; free[d] are the object numbers on its free list,
      in order; live[d] maps each object handed out to the length that was asked for. */
  datatype Ledger = Ledger(lists: seq<seq<int>>, home: seq<int>, free: seq<seq<nat>>, live: seq<map<nat, nat>>)

  /** The sizes of bucket_dir. */
  function Size(k: nat): (r: nat)
    requires k < BUCKETS
    ensures r >= 16 && Count(k) * r == PAGE
  {
    [16, 32, 64, 128, 256, 512, 1024, 2048, 4096][k]
  }

  function Count(k: nat): nat
    requires k < BUCKETS
  {
    [256, 128, 64, 32, 16, 8, 4, 2, 1][k]
  }

  /** The address of object j of a page of bucket k. */
  function Obj(page: int, k: nat, j: nat): int
    requires k < BUCKETS
  {
    page + j * Size(k)
  }

  lemma NextObj(page: int, k: nat, j: nat)
    requires k < BUCKETS
    ensures Count(k) >= 1 && Obj(page, k, 0) == page
    ensures Obj(page, k, j + 1) == Obj(page, k, j) + Size(k)
  {
    assert (j + 1) * Size(k) == j * Size(k) + Size(k);
  }

  lemma ObjBounds(page: int, k: nat, j: nat)
    requires k < BUCKETS && j < Count(k)
    ensures page <= Obj(page, k, j) && Obj(page, k, j) + Size(k) <= page + PAGE
  {
    var s, n := Size(k), Count(k);
    assert (j + 1) * s <= n * s by {
      assert (n - (j + 1)) * s >= 0;
      assert (n - (j + 1)) * s == n * s - (j + 1) * s;
    }
    assert (j + 1) * s == j * s + s;
    assert j * s >= 0;
  }

  lemma ObjApart(page: int, k: nat, i: nat, j: nat)
    requires k < BUCKETS && i < j
    ensures Obj(page, k, i) + Size(k) <= Obj(page, k, j)
  {
    var s := Size(k);
    assert (j - i) * s == j * s - i * s;
    assert (j - i - 1) * s >= 0;
    assert (j - i - 1) * s == (j - i) * s - s;
  }

  lemma PagesApart(p: int, q: int)
    requires p % PAGE == 0 && q % PAGE == 0 && p != q
    ensures p + PAGE <= q || q + PAGE <= p
  {
  }

  // ---------------------------------------------------------------- linked lists

  /** The link fields of the descriptors. */
  function Nexts(ds: seq<Desc>): (n: seq<int>)
    ensures |n| == |ds| && forall d :: 0 <= d < |ds| ==> n[d] == ds[d].next
  {
    seq(|ds|, d requires 0 <= d < |ds| => ds[d].next)
  }

  /** Unlinking the i-th descriptor. */
  lemma {:induction false} UnlinkAt(next: seq<int>, head: int, q: seq<int>, i: nat)
    requires Linked(next, head, q) && NoDup(q) && i < |q| && q[i] in q && 0 <= q[i] < |next|
    requires i > 0 ==> 0 <= q[i - 1] < |next|
    ensures i == 0 ==> Linked(next, next[q[0]], q[..i] + q[i + 1..])
    ensures i > 0 ==> Linked(next[q[i - 1] := next[q[i]]], head, q[..i] + q[i + 1..])
    decreases i
  {
    var r := q[..i] + q[i + 1..];
    if i == 0 {
      assert r == q[1..];
    } else {
      var next2 := next[q[i - 1] := next[q[i]]];
      assert r[0] == q[0];
      if i == 1 {
        assert r[1..] == q[1..][1..];
        assert q[1..][0] == q[1];
        LinkedFrame(next, next2, next[q[1]], q[1..][1..]);
      } else {
        UnlinkAt(next, next[head], q[1..], i - 1);
        assert r[1..] == q[1..][..i - 1] + q[1..][i..];
      }
    }
  }

  /** The descriptor before d, if there is one. */
  function Before(q: seq<int>, d: int): (r: int)
    requires d in q
    ensures if IndexOf(q, d) == 0 then r == NONE else r == q[IndexOf(q, d) - 1] && r in q
  {
    if IndexOf(q, d) == 0 then NONE else q[IndexOf(q, d) - 1]
  }

  function Without(q: seq<int>, d: int): seq<int>
    requires d in q
  {
    q[..IndexOf(q, d)] + q[IndexOf(q, d) + 1..]
  }

  lemma WithoutHas(q: seq<int>, d: int)
    requires d in q && NoDup(q)
    ensures NoDup(Without(q, d)) && forall x :: x in Without(q, d) <==> x in q && x != d
  {
    var i := IndexOf(q, d);
    forall x | x in q && x != d ensures x in Without(q, d) {
      var j :| 0 <= j < |q| && q[j] == x;
      if j < i { assert Without(q, d)[j] == x; } else { assert Without(q, d)[j - 1] == x; }
    }
  }

  // ---------------------------------------------------------------- free lists in place

  /** From ptr, the words of the page's free objects visit the objects of q and then end. */
  ghost predicate FreeChain(mem: seq<int>, page: int, k: nat, ptr: int, q: seq<nat>)
    requires k < BUCKETS
    decreases |q|
  {
    if q == [] then ptr == 0
    else ptr == Obj(page, k, q[0]) && 0 < ptr < |mem| && FreeChain(mem, page, k, mem[ptr], q[1..])
  }

  lemma {:induction false} FreeFrame(mem: seq<int>, mem2: seq<int>, page: int, k: nat, ptr: int, q: seq<nat>)
    requires k < BUCKETS && FreeChain(mem, page, k, ptr, q) && |mem2| == |mem|
    requires forall j :: j in q && 0 <= Obj(page, k, j) < |mem| ==> mem2[Obj(page, k, j)] == mem[Obj(page, k, j)]
    ensures FreeChain(mem2, page, k, ptr, q)
    decreases |q|
  {
    if q != [] {
      assert q[0] in q;
      assert forall j :: j in q[1..] ==> j in q;
      FreeFrame(mem, mem2, page, k, mem[ptr], q[1..]);
    }
  }

  // ---------------------------------------------------------------- the invariant

  function Head(h: Heap, k: nat): int
    requires k <= SPARE && |h.dir| == BUCKETS
  {
    if k == SPARE then h.spare else h.dir[k]
  }

  ghost predicate PageOk(h: Heap, p: int) {
    0 < p && p % PAGE == 0 && p + PAGE <= |h.mem|
  }

  ghost predicate Shape(h: Heap, a: Ledger) {
    && |h.dir| == BUCKETS && |a.lists| == SPARE + 1
    && |a.home| == |a.free| == |a.live| == |h.desc| == PER_PAGE * |h.dpages|
    && (forall d :: 0 <= d < |a.home| ==> 0 <= a.home[d] <= SPARE)
  }

  /** List k is acyclic, ends, and holds exactly the descriptors whose home it is. */
  ghost predicate ListOk(h: Heap, a: Ledger, k: nat)
    requires Shape(h, a) && k <= SPARE
  {
    && Linked(Nexts(h.desc), Head(h, k), a.lists[k])
    && NoDup(a.lists[k])
    && (forall d :: d in a.lists[k] <==> 0 <= d < |a.home| && a.home[d] == k)
  }

  /** Every object of a page of bucket k is either free or live, and not both; live ones are long enough. */
  ghost predicate Divided(free: seq<nat>, live: map<nat, nat>, k: nat)
    requires k < BUCKETS
  {
    && NoDup(free)
    && (forall j :: j in free ==> j < Count(k) && j !in live)
    && (forall j :: j in live ==> j < Count(k) && live[j] <= Size(k))
    && (forall j: nat :: j < Count(k) ==> j in free || j in live)
  }

  /** What descriptor d in bucket k's chain says about its page is true. */
  ghost predicate DescOk(h: Heap, a: Ledger, d: int, k: nat)
    requires Shape(h, a) && 0 <= d < |h.desc| && k < BUCKETS
  {
    var b := h.desc[d];
    && b.size == Size(k) && PageOk(h, b.page)
    && Divided(a.free[d], a.live[d], k)
    && FreeChain(h.mem, b.page, k, b.freeptr, a.free[d])
    && b.refcnt == |a.live[d]|
    && b.refcnt + |a.free[d]| == Count(k)
  }

  ghost predicate Descs(h: Heap, a: Ledger)
    requires Shape(h, a)
  {
    forall d :: 0 <= d < |h.desc| ==>
      if a.home[d] == SPARE then a.live[d] == map[] else DescOk(h, a, d, a.home[d])
  }

  ghost predicate InUse(a: Ledger, d: int) {
    0 <= d < |a.home| && a.home[d] != SPARE
  }

  /** The pages of the pool, of the buckets and of the descriptors are all different. */
  ghost predicate Pages(h: Heap, a: Ledger)
    requires Shape(h, a)
  {
    && (forall d, e :: InUse(a, d) && InUse(a, e) && d != e ==> h.desc[d].page != h.desc[e].page)
    && (forall d :: InUse(a, d) ==> h.desc[d].page !in h.pool && h.desc[d].page !in h.dpages)
    && NoDup(h.pool) && NoDup(h.dpages)
    && (forall p :: p in h.pool ==> PageOk(h, p) && p !in h.dpages)
  }

  ghost predicate Inv(h: Heap, a: Ledger) {
    && Shape(h, a)
    && (forall k :: 0 <= k <= SPARE ==> ListOk(h, a, k))
    && Descs(h, a)
    && Pages(h, a)
  }

  /** No page is kept without a live object, except possibly that of descriptor d. */
  ghost predicate NoIdle(a: Ledger, except: int)
    requires |a.live| == |a.home|
  {
    forall d :: InUse(a, d) && d != except ==> a.live[d] != map[]
  }

  ghost predicate Good(h: Heap, a: Ledger) {
    Inv(h, a) && NoIdle(a, NONE)
  }

  /** Address x lies inside live object j of descriptor d. */
  ghost predicate Inside(h: Heap, a: Ledger, d: int, j: nat, x: int)
    requires Shape(h, a)
  {
    && InUse(a, d) && j in a.live[d]
    && Obj(h.desc[d].page, a.home[d], j) <= x < Obj(h.desc[d].page, a.home[d], j) + Size(a.home[d])
  }

  /** Live objects do not overlap each other; each lies in its page, is long enough for what was asked,
      and is not where any free-list pointer is kept. */
  lemma LiveApart(h: Heap, a: Ledger, d: int, j: nat, e: int, i: nat, x: int)
    requires Inv(h, a) && Inside(h, a, d, j, x)
    ensures 0 < h.desc[d].page <= x < h.desc[d].page + PAGE <= |h.mem| && a.live[d][j] <= Size(a.home[d])
    ensures Inside(h, a, e, i, x) ==> d == e && i == j
    ensures InUse(a, e) && i in a.free[e] ==> x != Obj(h.desc[e].page, a.home[e], i)
  {
    assert DescOk(h, a, d, a.home[d]);
    ObjBounds(h.desc[d].page, a.home[d], j);
    if InUse(a, e) && (i in a.live[e] || i in a.free[e]) {
      assert DescOk(h, a, e, a.home[e]);
      ObjBounds(h.desc[e].page, a.home[e], i);
      if d != e { PagesApart(h.desc[d].page, h.desc[e].page); }
      hide Inv, FreeChain, Obj;
      if d == e && i < j { ObjApart(h.desc[d].page, a.home[d], i, j); }
      if d == e && j < i { ObjApart(h.desc[d].page, a.home[d], j, i); }
    }
  }
}
