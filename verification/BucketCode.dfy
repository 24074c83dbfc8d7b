/** `lib/malloc.c` on memory: loops that walk and change the lists in place. */
module BucketCode {
  import opened Basics
  import opened BucketHeap
  import opened BucketSteps
  import opened BucketRuns

  datatype Outcome = Address(addr: int) | Panic

  function PageOf(obj: int): int {
    obj - obj % PAGE
  }

  class Allocator {
    var desc: seq<Desc>
    const dir: array<int>
    var spare: int
    const mem: array<int>
    var pool: seq<int>
    var dpages: seq<int>
    ghost var a: Ledger

    ghost function S(): Heap
      reads this, dir, mem
    {
      Heap(desc, dir[..], spare, mem[..], pool, dpages)
    }

    ghost predicate Valid()
      reads this, dir, mem
    {
      dir != mem && Good(S(), a)
    }

    constructor (memory: array<int>, pages: seq<int>)
      requires NoDup(pages) && forall p :: p in pages ==> 0 < p && p % PAGE == 0 && p + PAGE <= memory.Length
      ensures Valid() && mem == memory && fresh(dir) && a == NothingYet() && pool == pages
    {
      desc, spare, mem, pool, dpages := [], NONE, memory, pages, [];
      dir := new int[BUCKETS](_ => NONE);
      a := NothingYet();
      new;
      assert S() == AtStart(mem[..], pages);
      StartIsGood(mem[..], pages);
    }

    /** The first loop of malloc. */
    method FindBucket(len: nat) returns (k: nat)
      ensures k == BucketFor(len, 0)
    {
      k := 0;
      while k < BUCKETS && Size(k) < len
        invariant k <= BUCKETS && BucketFor(len, 0) == BucketFor(len, k)
      {
        k := k + 1;
      }
    }

    /** The second loop of malloc: the first descriptor of the chain that has a free object. */
    method FindFree(k: nat) returns (d: int)
      requires Good(S(), a) && k < BUCKETS
      ensures d == At(a.lists[k], FirstFree(desc, a.lists[k]))
      ensures d == NONE <==> NoneFree(a, k)
      ensures d != NONE ==>
        exists i: nat :: i < |a.lists[k]| && d == a.lists[k][i] && FirstWithFree(S(), a, k, i)
    {
      FullIff(S(), a, k);
      ghost var q, i := a.lists[k], 0;
      assert ListOk(S(), a, k);
      d := dir[k];
      while d != NONE && desc[d].freeptr == 0
        invariant 0 <= i <= |q| && d == At(q, i) && FirstFree(desc, q) == i + FirstFree(desc, q[i..])
        invariant if d == NONE then i == |q| else 0 <= d < |desc|
        decreases |q| - i
      {
        LinkedAt(Nexts(desc), dir[k], q, i);
        if i + 1 < |q| { LinkedAt(Nexts(desc), dir[k], q, i + 1); }
        assert q[i..][1..] == q[i + 1..] && q[i..][0] == q[i];
        d := desc[d].next;
        i := i + 1;
      }
      assert d == NONE ==> i == |q|;
      assert i < |q| ==> q[i..][0] == q[i];
      if i < |q| { FirstIs(S(), a, k, i); }
    }

    /** get_free_page: 0 when there is none. */
    method GetFreePage() returns (p: int)
      requires pool != [] ==> 0 < pool[0] && pool[0] + PAGE <= mem.Length
      modifies this`pool, mem
      ensures old(pool) == [] ==> p == 0 && pool == [] && mem[..] == old(mem[..])
      ensures old(pool) != [] ==> p == old(pool)[0] && pool == old(pool)[1..] && mem[..] == Zeroed(old(mem[..]), p)
      ensures old(pool) != [] ==> forall x :: p <= x < p + PAGE ==> mem[x] == 0
    {
      if pool == [] { return 0; }
      p, pool := pool[0], pool[1..];
      forall x | p <= x < p + PAGE { mem[x] := 0; }
    }

    /** init_bucket_desc. */
    method InitBucketDesc() returns (ok: bool)
      requires dir != mem && Good(S(), a)
      modifies this, mem
      ensures ok <==> old(pool) != []
      ensures ok ==> S() == Spares(old(S())) && a == Spared(old(a)) && Inv(S(), a)
    {
      assert pool != [] ==> pool[0] in pool;
      if pool != [] { SparesKeeps(S(), a); }
      hide Good, Inv;
      assert |a.lists| == SPARE + 1 by { assert Shape(S(), a); }
      var page := GetFreePage();
      if page == 0 { return false; }
      ok := true;
      dpages := dpages + [page];
      ChainDescs();
      a := Spared(a);
    }

    /** The loop of init_bucket_desc, over the new page's descriptors, and the link to the old spare ones. */
    method ChainDescs()
      modifies this`desc, this`spare
      ensures desc == old(desc) + FreshDescs(|old(desc)|, old(spare)) && spare == |old(desc)|
    {
      ghost var was := desc;
      var first := |desc|;
      var bdesc := first;
      desc := desc + seq(PER_PAGE, _ => Desc(0, 0, 0, 0, 0));
      while bdesc < first + PER_PAGE - 1
        invariant first <= bdesc <= first + PER_PAGE - 1 && |desc| == first + PER_PAGE
        invariant desc[..first] == was && spare == old(spare)
        invariant forall d :: first <= d < |desc| ==> desc[d] == Desc(0, if d < bdesc then d + 1 else 0, 0, 0, 0)
      {
        desc := desc[bdesc := desc[bdesc].(next := bdesc + 1)];
        bdesc := bdesc + 1;
      }
      desc := desc[bdesc := desc[bdesc].(next := spare)];
      spare := first;
      forall i | 0 <= i < PER_PAGE ensures desc[first..][i] == FreshDescs(first, old(spare))[i] {
        assert desc[first..][i] == desc[first + i];
      }
      assert desc[first..] == FreshDescs(first, old(spare));
      assert desc == desc[..first] + desc[first..];
    }

    /** The loop that links the objects of a new page. */
    method LinkObjects(page: int, k: nat)
      requires k < BUCKETS && 0 < page && page + PAGE <= mem.Length
      modifies mem
      ensures mem[..] == Thread(old(mem[..]), page, k, Count(k))
    {
      hide Obj, Count;
      ghost var m := mem[..];
      NextObj(page, k, 0);
      var cp, i := page, Count(k);
      while i > 1
        invariant 1 <= i <= Count(k) && cp == Obj(page, k, Count(k) - i)
        invariant mem[..] == Thread(m, page, k, Count(k) - i)
      {
        ObjBounds(page, k, Count(k) - i);
        NextObj(page, k, Count(k) - i);
        mem[cp] := cp + Size(k);
        cp := cp + Size(k);
        i := i - 1;
      }
      ObjBounds(page, k, Count(k) - 1);
      mem[cp] := 0;
    }

    /** malloc, when no bucket of the right size has a free object. */
    method NewBucket(k: nat) returns (d: int)
      requires Valid() && k < BUCKETS
      modifies this, dir, mem
      ensures d == NONE <==> OutOfMemory(old(S()))
      ensures d != NONE ==> (S(), a, d) == FilledFor(old(S()), old(a), k)
    {
      ghost var h0, a0 := S(), a;
      if spare == NONE {
        var ok := InitBucketDesc();
        if !ok { return NONE; }
      }
      if pool != [] { assert (S(), a) == WithSpare(h0, a0); }
      d := OpenBucket(k);
    }

    /** Lines 152-166. */
    method OpenBucket(k: nat) returns (d: int)
      requires dir != mem && Good(S(), a) && k < BUCKETS && spare != NONE
      modifies this, dir, mem
      ensures d == NONE <==> old(pool) == []
      ensures d != NONE ==> var h, b := old(S()), old(a);
                            && 0 <= h.spare < |h.desc| && PageOk(h, h.pool[0]) && b.lists[SPARE] != []
                            && S() == Filled(h, k) && a == Opened(b, k, h.spare) && d == h.spare
    {
      ghost var h := S();
      SpareHead(S(), a);
      if pool != [] { FillKeeps(S(), a, k); }
      d := spare;
      spare := desc[d].next;
      desc := desc[d := desc[d].(refcnt := 0, size := Size(k))];
      var cp := GetFreePage();
      desc := desc[d := desc[d].(page := cp, freeptr := cp)];
      if cp == 0 { return NONE; }
      LinkObjects(cp, k);
      desc := desc[d := desc[d].(next := dir[k])];
      dir[k] := d;
      a := Opened(a, k, d);
      assert desc[d] == Filled(h, k).desc[d];
    }

    /** malloc. */
    method Malloc(len: nat) returns (r: Outcome)
      requires Valid()
      modifies this, dir, mem
      ensures r == Panic <==> MallocPanics(old(S()), old(a), len)
      ensures r == Panic <==>
        len > PAGE || (NoneFree(old(a), BucketFor(len, 0)) && old(|pool|) < PagesWanted(old(S())))
      ensures r != Panic ==> (S(), a) == Malloced(old(S()), old(a), len) && Valid()
      ensures r != Panic ==> var s := Ready(old(S()), old(a), len); r == Address(s.0.desc[s.2].freeptr)
    {
      ghost var h, b := S(), a;
      PanicsIff(h, b, len);
      var k := FindBucket(len);
      if k == BUCKETS { return Panic; }
      var d := FindFree(k);
      ghost var q := a.lists[k];
      assert ListOk(h, a, k);
      if d == NONE {
        d := NewBucket(k);
        if d == NONE { return Panic; }
      }
      assert (S(), a, d) == Ready(h, b, len);
      TakeKeeps(S(), a, d, len);
      var retval := TakeObject(d, len);
      r := Address(retval);
    }

    /** Lines 168-170. */
    method TakeObject(d: int, len: nat) returns (retval: int)
      requires 0 <= d < |desc| && 0 <= desc[d].freeptr < mem.Length
      requires d < |a.free| == |a.live| && a.free[d] != []
      modifies this
      ensures S() == Take(old(S()), d) && a == Taken(old(a), d, len) && retval == old(desc[d].freeptr)
    {
      retval := desc[d].freeptr;
      desc := desc[d := desc[d].(freeptr := mem[retval])];
      desc := desc[d := desc[d].(refcnt := desc[d].refcnt + 1)];
      a := Taken(a, d, len);
    }
  
    // -------------------------------------------------------------- free_s

    /** The search of free_s: the descriptor of a page, in a bucket of at least the given size. */
    method FindPage(page: int, size: int) returns (k: nat, d: int, prev: int)
      requires Good(S(), a)
      ensures d == NONE ==> forall e :: InUse(a, e) && desc[e].page == page ==> Size(a.home[e]) < size
      ensures d != NONE ==>
        InUse(a, d) && a.home[d] == k && desc[d].page == page && Size(k) >= size && NONE <= prev < |desc|
    {
      k := 0;
      d, prev := NONE, NONE;
      while k < BUCKETS
        invariant k <= BUCKETS && d == NONE
        invariant forall e :: InUse(a, e) && desc[e].page == page && a.home[e] < k ==> Size(a.home[e]) < size
      {
        if Size(k) >= size {
          d, prev := SearchChain(k, page);
          if d != NONE { return; }
        }
        k := k + 1;
      }
    }

    method SearchChain(k: nat, page: int) returns (d: int, prev: int)
      requires Good(S(), a) && k < BUCKETS
      ensures d == NONE ==> forall e :: InUse(a, e) && a.home[e] == k ==> desc[e].page != page
      ensures d != NONE ==> InUse(a, d) && a.home[d] == k && desc[d].page == page && NONE <= prev < |desc|
    {
      ghost var q, i := a.lists[k], 0;
      assert ListOk(S(), a, k);
      prev := NONE;
      d := dir[k];
      while d != NONE && desc[d].page != page
        invariant 0 <= i <= |q| && d == At(q, i) && NONE <= prev < |desc|
        invariant if d == NONE then i == |q| else 0 <= d < |desc|
        invariant forall n :: 0 <= n < i ==> 0 <= q[n] < |desc| && desc[q[n]].page != page
        decreases |q| - i
      {
        LinkedAt(Nexts(desc), dir[k], q, i);
        if i + 1 < |q| { LinkedAt(Nexts(desc), dir[k], q, i + 1); }
        prev := d;
        d := desc[d].next;
        i := i + 1;
      }
      if d != NONE { assert d in q; }
    }

    /** Lines 213-224: unlink d from its chain, whatever has happened to prev since the search. */
    method Unlink(k: nat, d: int, prev0: int)
      requires dir != mem && Inv(S(), a) && InUse(a, d) && a.home[d] == k && NONE <= prev0 < |desc|
      modifies this`desc, dir
      ensures d in a.lists[k]
      ensures var q, n := a.lists[k], old(desc[d].next);
              && (IndexOf(q, d) == 0 ==> desc == old(desc) && dir[..] == old(dir[..])[k := n])
              && (IndexOf(q, d) != 0 ==> var b := Before(q, d);
                                         0 <= b < |old(desc)| && dir[..] == old(dir[..])
                                             && desc == old(desc)[b := old(desc)[b].(next := n)])
    {
      InList(S(), a, d);
      var prev := prev0;
      if (prev != NONE && desc[prev].next != d) || (prev == NONE && dir[k] != d) {
        prev := FindPrev(k, d);
      }
      PrevIsBefore(S(), a, d, prev);
      if prev != NONE {
        desc := desc[prev := desc[prev].(next := desc[d].next)];
      } else {
        dir[k] := desc[d].next;
      }
    }

    /** The search again, when prev was out of date. */
    method FindPrev(k: nat, d: int) returns (prev: int)
      requires Inv(S(), a) && InUse(a, d) && a.home[d] == k
      ensures NONE <= prev < |desc| && (prev == NONE ==> dir[k] == d) && (prev != NONE ==> desc[prev].next == d)
    {
      ghost var q, i := a.lists[k], 0;
      assert ListOk(S(), a, k);
      prev := dir[k];
      while prev != NONE && desc[prev].next != d
        invariant 0 <= i <= |q| && prev == At(q, i)
        invariant if prev == NONE then i == |q| else 0 <= prev < |desc|
        invariant forall n :: 1 <= n <= i ==> At(q, n) != d
        decreases |q| - i
      {
        LinkedAt(Nexts(desc), dir[k], q, i);
        if i + 1 < |q| { LinkedAt(Nexts(desc), dir[k], q, i + 1); }
        prev := desc[prev].next;
        i := i + 1;
      }
      if prev == NONE { OnlyHead(S(), a, d); }
    }

    /** free_s of object j of descriptor d; or of an address in no bucket's page. */
    method FreeS(obj: int, size: int, ghost d: int, ghost j: nat) returns (panic: bool)
      requires Valid()
      requires (forall e :: InUse(a, e) ==> desc[e].page != PageOf(obj))
               || (InUse(a, d) && j in a.live[d] && obj == Obj(desc[d].page, a.home[d], j))
      modifies this, dir, mem
      ensures panic <==> !exists e ::
        InUse(old(a), e) && old(desc)[e].page == PageOf(obj) && Size(old(a).home[e]) >= size
      ensures panic ==> S() == old(S()) && a == old(a)
      ensures !panic ==> InUse(old(a), d) && j in old(a).live[d] && (S(), a) == Freed(old(S()), old(a), d, j) && Valid()
    {
      var k, bdesc, prev := FindPage(PageOf(obj), size);
      if bdesc == NONE { return true; }
      OwnerIs(S(), a, d, j, bdesc);
      Release(obj, k, bdesc, prev, j);
      panic := false;
    }

    /** Lines 205-228. */
    method Release(obj: int, k: nat, d: int, prev: int, ghost j: nat)
      requires Valid() && InUse(a, d) && a.home[d] == k && j in a.live[d] && obj == Obj(desc[d].page, k, j)
      requires NONE <= prev < |desc|
      modifies this, dir, mem
      ensures (S(), a) == Freed(old(S()), old(a), d, j) && Valid()
    {
      PutKeeps(S(), a, d, j);
      ghost var h1, a1 := Put(S(), d, obj), Returned(a, d, j);
      mem[obj] := desc[d].freeptr;
      desc := desc[d := desc[d].(freeptr := obj, refcnt := desc[d].refcnt - 1)];
      a := Returned(a, d, j);
      assert S() == h1;
      if desc[d].refcnt == 0 {
        assert DescOk(h1, a1, d, k);
        RetireKeeps(h1, a1, d);
        RetireBucket(k, d, prev);
      }
    }

    method RetireBucket(k: nat, d: int, prev: int)
      requires dir != mem && Inv(S(), a) && InUse(a, d) && a.home[d] == k && NONE <= prev < |desc|
      requires d in a.lists[k] && forall e :: e in a.lists[k] ==> 0 <= e < |desc|
      modifies this, dir
      ensures S() == Retired(old(S()), old(a), d) && a == Closed(old(a), d)
    {
      assert Shape(S(), a);
      hide Inv;
      Unlink(k, d, prev);
      pool := pool + [desc[d].page];
      desc := desc[d := desc[d].(next := spare)];
      spare := d;
      a := Closed(a, d);
    }
  }

  /** The only next pointer that leads to d is that of the descriptor before it on its list. */
  lemma PrevIsBefore(h: Heap, a: Ledger, d: int, prev: int)
    requires Inv(h, a) && InUse(a, d) && d in a.lists[a.home[d]] && NONE <= prev < |h.desc|
    requires prev == NONE ==> h.dir[a.home[d]] == d
    requires prev != NONE ==> h.desc[prev].next == d
    ensures prev == Before(a.lists[a.home[d]], d)
    ensures prev == NONE <==> IndexOf(a.lists[a.home[d]], d) == 0
  {
    var k := a.home[d];
    var q := a.lists[k];
    assert ListOk(h, a, k);
    if prev == NONE {
      LinkedAt(Nexts(h.desc), h.dir[k], q, 0);
    } else {
      assert ListOk(h, a, a.home[prev]);
      var r := a.lists[a.home[prev]];
      assert prev in r;
      var i := IndexOf(r, prev);
      LinkedAt(Nexts(h.desc), Head(h, a.home[prev]), r, i);
      assert r[i + 1] == d && d in r;
    }
  }

  /** A descriptor no other points to is the head of its list. */
  lemma OnlyHead(h: Heap, a: Ledger, d: int)
    requires Inv(h, a) && InUse(a, d)
    requires forall n :: 1 <= n <= |a.lists[a.home[d]]| ==> At(a.lists[a.home[d]], n) != d
    ensures h.dir[a.home[d]] == d
  {
    var k := a.home[d];
    assert ListOk(h, a, k);
    var i := IndexOf(a.lists[k], d);
    assert At(a.lists[k], i) == d;
    LinkedAt(Nexts(h.desc), h.dir[k], a.lists[k], 0);
  }

  /** The page of a live object belongs to its descriptor alone. */
  lemma OwnerIs(h: Heap, a: Ledger, d: int, j: nat, e: int)
    requires Inv(h, a) && InUse(a, d) && j in a.live[d] && InUse(a, e)
    requires h.desc[e].page == PageOf(Obj(h.desc[d].page, a.home[d], j))
    ensures e == d
  {
    assert DescOk(h, a, d, a.home[d]);
    ObjBounds(h.desc[d].page, a.home[d], j);
    PageOfIs(h.desc[d].page, Obj(h.desc[d].page, a.home[d], j));
    hide PageOf, DescOk;
  }

  lemma PageOfIs(p: int, x: int)
    requires p % PAGE == 0 && p <= x < p + PAGE
    ensures PageOf(x) == p
  {
  }
}
