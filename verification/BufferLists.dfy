/** The two lists of `fs/buffer.c`: hash chains and the circular free ring, both threaded through the
    one array of buffer heads. A pointer to a buffer head is its index; -1 is NULL. */
module BufferLists {
  import opened Basics

  // ---------------------------------------------------------------- doubly linked chains

  ghost predicate Members(c: seq<nat>, n: nat) {
    && (forall i :: 0 <= i < |c| ==> c[i] < n)
    && (forall i, j :: 0 <= i < j < |c| ==> c[i] != c[j])
  }

  /** The i-th element of chain c points at its neighbours. */
  ghost predicate ChainLink(next: seq<int>, prev: seq<int>, c: seq<nat>, i: nat)
    requires i < |c| && c[i] < |next| == |prev|
  {
    next[c[i]] == At(c, i + 1) && prev[c[i]] == At(c, i - 1)
  }

  ghost predicate Chain(next: seq<int>, prev: seq<int>, c: seq<nat>)
    requires |next| == |prev|
  {
    Members(c, |next|) && forall i: nat :: i < |c| ==> ChainLink(next, prev, c, i)
  }

  function Without(c: seq<nat>, k: nat): seq<nat>
    requires k < |c|
  {
    c[..k] + c[k + 1..]
  }

  lemma WithoutOrder(c: seq<nat>, k: nat, n: nat)
    requires Members(c, n) && k < |c|
    ensures Members(Without(c, k), n) && c[k] !in Without(c, k)
    ensures forall x :: x in Without(c, k) <==> x in c && x != c[k]
  {
    var d := Without(c, k);
    assert forall i :: 0 <= i < |d| ==> d[i] == if i < k then c[i] else c[i + 1];
    forall x | x in c && x != c[k] ensures x in d {
      var i :| 0 <= i < |c| && c[i] == x;
      assert d[if i < k then i else i - 1] == x;
    }
  }

  /** The neighbours that b has on its chain are joined to each other. */
  function UnlinkNext(next: seq<int>, prev: seq<int>, b: nat): seq<int>
    requires b < |next| == |prev|
  {
    if 0 <= prev[b] < |next| then next[prev[b] := next[b]] else next
  }

  function UnlinkPrev(next: seq<int>, prev: seq<int>, b: nat): seq<int>
    requires b < |next| == |prev|
  {
    if 0 <= next[b] < |prev| then prev[next[b] := prev[b]] else prev
  }

  lemma ChainUnlinked(next: seq<int>, prev: seq<int>, c: seq<nat>, k: nat)
    requires |next| == |prev| && Chain(next, prev, c) && k < |c|
    ensures Chain(UnlinkNext(next, prev, c[k]), UnlinkPrev(next, prev, c[k]), Without(c, k))
  {
    var next', prev', d := UnlinkNext(next, prev, c[k]), UnlinkPrev(next, prev, c[k]), Without(c, k);
    WithoutOrder(c, k, |next|);
    assert ChainLink(next, prev, c, k);
    forall i: nat | i < |d| ensures ChainLink(next', prev', d, i) {
      var j := if i < k then i else i + 1;
      assert d[i] == c[j] && ChainLink(next, prev, c, j);
      assert j != k - 1 ==> k > 0 ==> c[j] != c[k - 1];
      assert j != k + 1 ==> k + 1 < |c| ==> c[j] != c[k + 1];
    }
  }

  /** Another chain does not notice. */
  lemma OtherChainKept(next: seq<int>, prev: seq<int>, c: seq<nat>, k: nat, e: seq<nat>)
    requires |next| == |prev| && Chain(next, prev, c) && k < |c| && Chain(next, prev, e)
    requires forall x :: x in c ==> x !in e
    ensures Chain(UnlinkNext(next, prev, c[k]), UnlinkPrev(next, prev, c[k]), e)
  {
    assert ChainLink(next, prev, c, k);
    forall i: nat | i < |e| ensures ChainLink(UnlinkNext(next, prev, c[k]), UnlinkPrev(next, prev, c[k]), e, i) {
      assert ChainLink(next, prev, e, i);
      assert e[i] in e;
      assert k > 0 ==> c[k - 1] in c;
      assert k + 1 < |c| ==> c[k + 1] in c;
    }
  }

  /** Buffer b becomes the first of a chain; the old first, if there is one, points back at it. */
  function PushNext(next: seq<int>, b: nat, head: int): seq<int>
    requires b < |next|
  {
    next[b := head]
  }

  function PushPrev(prev: seq<int>, b: nat, head: int): seq<int>
    requires b < |prev|
  {
    if 0 <= head < |prev| then prev[b := NONE][head := b] else prev[b := NONE]
  }

  lemma ChainPushed(next: seq<int>, prev: seq<int>, c: seq<nat>, b: nat)
    requires |next| == |prev| && Chain(next, prev, c) && b < |next| && b !in c
    ensures Chain(PushNext(next, b, At(c, 0)), PushPrev(prev, b, At(c, 0)), [b] + c)
  {
    var next', prev', d := PushNext(next, b, At(c, 0)), PushPrev(prev, b, At(c, 0)), [b] + c;
    forall i: nat | i < |d| ensures ChainLink(next', prev', d, i) {
      if i > 0 {
        assert ChainLink(next, prev, c, i - 1);
        assert c[i - 1] in c;
        assert i > 1 ==> c[i - 1] != c[0];
      }
    }
  }

  lemma OtherChainPushed(next: seq<int>, prev: seq<int>, c: seq<nat>, b: nat, e: seq<nat>)
    requires |next| == |prev| && Chain(next, prev, c) && b < |next| && b !in e && Chain(next, prev, e)
    requires forall x :: x in c ==> x !in e
    ensures Chain(PushNext(next, b, At(c, 0)), PushPrev(prev, b, At(c, 0)), e)
  {
    var next', prev' := PushNext(next, b, At(c, 0)), PushPrev(prev, b, At(c, 0));
    forall i: nat | i < |e| ensures ChainLink(next', prev', e, i) {
      assert ChainLink(next, prev, e, i);
      assert e[i] in e;
      assert |c| > 0 ==> c[0] in c;
    }
  }

  // ---------------------------------------------------------------- the free ring

  function Succ(r: seq<nat>, i: nat): nat
    requires i < |r|
  {
    if i + 1 < |r| then i + 1 else 0
  }

  function Pred(r: seq<nat>, i: nat): nat
    requires i < |r|
  {
    if i > 0 then i - 1 else |r| - 1
  }

  ghost predicate RingLink(nf: seq<int>, pf: seq<int>, r: seq<nat>, i: nat)
    requires i < |r| && r[i] < |nf| == |pf|
  {
    nf[r[i]] == r[Succ(r, i)] && pf[r[i]] == r[Pred(r, i)]
  }

  /** r is the ring in order, starting at free_list. */
  ghost predicate Ring(nf: seq<int>, pf: seq<int>, free: int, r: seq<nat>)
    requires |nf| == |pf|
  {
    && r != [] && Members(r, |nf|) && free == r[0]
    && forall i: nat :: i < |r| ==> RingLink(nf, pf, r, i)
  }

  lemma RingUnlinkedNext(nf: seq<int>, pf: seq<int>, r: seq<nat>, k: nat, i: nat)
    requires |nf| == |pf| && Members(r, |nf|) && k < |r| && |r| >= 2 && i < |r| - 1
    requires forall j: nat :: j < |r| ==> RingLink(nf, pf, r, j)
    ensures 0 <= nf[r[k]] < |nf| && 0 <= pf[r[k]] < |nf| && Without(r, k)[i] < |nf|
    ensures nf[pf[r[k]] := nf[r[k]]][Without(r, k)[i]] == Without(r, k)[Succ(Without(r, k), i)]
  {
    var d := Without(r, k);
    var j := if i < k then i else i + 1;
    assert RingLink(nf, pf, r, k);
    assert d[i] == r[j] && RingLink(nf, pf, r, j);
    var s := Succ(d, i);
    assert d[s] == r[if s < k then s else s + 1];
    assert j != Pred(r, k) ==> r[j] != r[Pred(r, k)];
  }

  lemma RingUnlinkedPrev(nf: seq<int>, pf: seq<int>, r: seq<nat>, k: nat, i: nat)
    requires |nf| == |pf| && Members(r, |nf|) && k < |r| && |r| >= 2 && i < |r| - 1
    requires forall j: nat :: j < |r| ==> RingLink(nf, pf, r, j)
    ensures 0 <= nf[r[k]] < |nf| && 0 <= pf[r[k]] < |nf| && Without(r, k)[i] < |nf|
    ensures pf[nf[r[k]] := pf[r[k]]][Without(r, k)[i]] == Without(r, k)[Pred(Without(r, k), i)]
  {
    var d := Without(r, k);
    var j := if i < k then i else i + 1;
    assert RingLink(nf, pf, r, k);
    assert d[i] == r[j] && RingLink(nf, pf, r, j);
    var p := Pred(d, i);
    assert d[p] == r[if p < k then p else p + 1];
    assert j != Succ(r, k) ==> r[j] != r[Succ(r, k)];
  }

  lemma RingUnlinked(nf: seq<int>, pf: seq<int>, free: int, r: seq<nat>, k: nat)
    requires |nf| == |pf| && Ring(nf, pf, free, r) && k < |r| && |r| >= 2
    ensures var b := r[k];
            && 0 <= nf[b] < |nf| && 0 <= pf[b] < |nf|
            && Ring(nf[pf[b] := nf[b]], pf[nf[b] := pf[b]], if free == b then nf[b] else free, Without(r, k))
  {
    hide Members, Without, Succ, Pred;
    WithoutOrder(r, k, |nf|);
    RingHead(nf, pf, free, r, k);
    forall i: nat | i < |r| - 1
      ensures Without(r, k)[i] < |nf|
      ensures RingLink(nf[pf[r[k]] := nf[r[k]]], pf[nf[r[k]] := pf[r[k]]], Without(r, k), i)
    {
      RingUnlinkedNext(nf, pf, r, k, i);
      RingUnlinkedPrev(nf, pf, r, k, i);
    }
  }

  /** Where the ring starts without its k-th buffer. */
  lemma RingHead(nf: seq<int>, pf: seq<int>, free: int, r: seq<nat>, k: nat)
    requires |nf| == |pf| && Ring(nf, pf, free, r) && k < |r| && |r| >= 2
    ensures r[k] < |nf| && 0 <= nf[r[k]] < |nf| && 0 <= pf[r[k]] < |nf| && |Without(r, k)| == |r| - 1
    ensures Without(r, k)[0] == if free == r[k] then nf[r[k]] else free
  {
    assert RingLink(nf, pf, r, k);
    assert free == r[k] <==> k == 0;
    assert Without(r, k)[0] == if k == 0 then r[1] else r[0];
  }

  /** Put at the end of the free list: just before free_list. */
  function AppendNext(nf: seq<int>, pf: seq<int>, free: nat, b: nat): seq<int>
    requires b < |nf| == |pf| && free < |nf| && 0 <= pf[free] < |nf|
  {
    nf[b := free][pf[free] := b]
  }

  function AppendPrev(pf: seq<int>, free: nat, b: nat): seq<int>
    requires b < |pf| && free < |pf|
  {
    pf[b := pf[free]][free := b]
  }

  lemma RingAppended(nf: seq<int>, pf: seq<int>, free: nat, r: seq<nat>, b: nat)
    requires |nf| == |pf| && Ring(nf, pf, free, r) && b < |nf| && b !in r
    ensures 0 <= pf[free] < |nf| && Ring(AppendNext(nf, pf, free, b), AppendPrev(pf, free, b), free, r + [b])
  {
    assert RingLink(nf, pf, r, 0);
    var d := r + [b];
    var last := |r| - 1;
    assert pf[free] == r[last] && r[last] in r && r[0] in r;
    var nf', pf' := AppendNext(nf, pf, free, b), AppendPrev(pf, free, b);
    forall i: nat | i < |d| ensures RingLink(nf', pf', d, i) {
      if i < |r| {
        assert RingLink(nf, pf, r, i) && r[i] in r;
        assert i != 0 ==> r[i] != r[0];
        assert i != last ==> r[i] != r[last];
      }
    }
  }

  // ---------------------------------------------------------------- the cache index

  const NR_HASH: nat := 307

  function Xor(a: nat, b: nat): nat {
    if a == 0 && b == 0 then 0 else (if a % 2 != b % 2 then 1 else 0) + 2 * Xor(a / 2, b / 2)
  }

  /** Binary digit i. */
  function Digit(a: nat, i: nat): nat {
    if i == 0 then a % 2 else Digit(a / 2, i - 1)
  }

  lemma {:induction false} XorDigits(a: nat, b: nat, i: nat)
    ensures Digit(Xor(a, b), i) == if Digit(a, i) != Digit(b, i) then 1 else 0
    decreases i
  {
    if i > 0 { XorDigits(a / 2, b / 2, i - 1); }
  }

  /** _hashfn. */
  function Hash(dev: nat, block: nat): (h: nat)
    ensures h < NR_HASH
  {
    Xor(dev, block) % NR_HASH
  }

  /** The fields of all buffer heads, hash_table and free_list; and what they thread: the chain of each
      hash value, and the free ring. */
  datatype Index = Index(
    dev: seq<nat>, block: seq<nat>, next: seq<int>, prev: seq<int>, nf: seq<int>, pf: seq<int>,
    hash: seq<int>, free: int, chains: seq<seq<nat>>, ring: seq<nat>)

  ghost predicate Sized(s: Index) {
    && |s.block| == |s.next| == |s.prev| == |s.nf| == |s.pf| == |s.dev| >= 2
    && |s.hash| == |s.chains| == NR_HASH
  }

  ghost predicate Bucket(s: Index, h: nat)
    requires Sized(s) && h < NR_HASH
  {
    && Chain(s.next, s.prev, s.chains[h]) && s.hash[h] == At(s.chains[h], 0)
    && forall x :: x in s.chains[h] ==> s.dev[x] != 0 && Hash(s.dev[x], s.block[x]) == h
  }

  ghost predicate Threaded(s: Index) {
    && Sized(s)
    && (forall h: nat :: h < NR_HASH ==> Bucket(s, h))
    && Ring(s.nf, s.pf, s.free, s.ring)
  }

  /** Where buffer b belongs: on the chain of its hash if it has a device, and on the ring. */
  ghost predicate Placed(s: Index, b: nat)
    requires Sized(s) && b < |s.dev|
  {
    && b in s.ring
    && (s.dev[b] != 0 ==> b in s.chains[Hash(s.dev[b], s.block[b])])
    && (s.dev[b] == 0 ==> s.next[b] == NONE && s.prev[b] == NONE)
  }

  /** Every buffer is where it belongs. */
  ghost predicate Whole(s: Index) {
    Threaded(s) && forall b: nat :: b < |s.dev| ==> Placed(s, b)
  }

  /** Between remove_from_queues and insert_into_queues: b is nowhere, the rest are placed. */
  ghost predicate Loose(s: Index, b: nat) {
    && Threaded(s) && b < |s.dev| && b !in s.ring
    && (forall h: nat :: h < NR_HASH ==> b !in s.chains[h])
    && (forall c: nat :: c < |s.dev| && c != b ==> Placed(s, c))
  }

  /** remove_from_queues, given where b stands on its chain (if it is hashed) and on the ring. */
  function Unhashed(s: Index, b: nat, h: nat, k: nat): Index
    requires Sized(s) && b < |s.dev| && h < NR_HASH
  {
    s.(next := UnlinkNext(s.next, s.prev, b), prev := UnlinkPrev(s.next, s.prev, b),
       hash := if s.hash[h] == b then s.hash[h := s.next[b]] else s.hash,
       chains := if k < |s.chains[h]| then s.chains[h := Without(s.chains[h], k)] else s.chains)
  }

  function Unringed(s: Index, b: nat, k: nat): Index
    requires Sized(s) && b < |s.dev| && 0 <= s.nf[b] < |s.nf| && 0 <= s.pf[b] < |s.nf| && k < |s.ring|
  {
    s.(nf := s.nf[s.pf[b] := s.nf[b]], pf := s.pf[s.nf[b] := s.pf[b]],
       free := if s.free == b then s.nf[b] else s.free, ring := Without(s.ring, k))
  }

  lemma UnhashedLinks(s: Index, b: nat, k: nat)
    requires Whole(s) && b < |s.dev|
    requires var c := s.chains[Hash(s.dev[b], s.block[b])]; if s.dev[b] != 0 then k < |c| && c[k] == b else k >= |c|
    ensures var h := Hash(s.dev[b], s.block[b]); var s' := Unhashed(s, b, h, k);
            && Threaded(s')
            && (forall g: nat, x :: g < NR_HASH ==> (x in s'.chains[g] <==> x in s.chains[g] && x != b))
            && (forall x: nat :: x < |s.dev| && s.dev[x] == 0 ==> s'.next[x] == s.next[x] && s'.prev[x] == s.prev[x])
  {
    var h := Hash(s.dev[b], s.block[b]);
    hide Hash;
    var s' := Unhashed(s, b, h, k);
    var c := s.chains[h];
    assert Placed(s, b) && Bucket(s, h);
    if s.dev[b] == 0 {
      assert b !in c;
      assert s.hash[h] != b;
      assert s' == s;
      forall g: nat, x | g < NR_HASH ensures x in s'.chains[g] <==> x in s.chains[g] && x != b {
        assert Bucket(s, g);
      }
    } else {
      assert ChainLink(s.next, s.prev, c, k);
      ChainUnlinked(s.next, s.prev, c, k);
      WithoutOrder(c, k, |s.dev|);
      assert s.hash[h] == b <==> k == 0 by { if k > 0 { assert c[0] != c[k]; } }
      forall g: nat | g < NR_HASH
        ensures Bucket(s', g) && forall x :: x in s'.chains[g] <==> x in s.chains[g] && x != b
      {
        assert Bucket(s, g);
        if g != h {
          assert forall x :: x in c ==> x !in s.chains[g];
          OtherChainKept(s.next, s.prev, c, k, s.chains[g]);
        }
      }
      assert k > 0 ==> c[k - 1] in c;
      assert k + 1 < |c| ==> c[k + 1] in c;
    }
  }

  lemma Removed(s: Index, b: nat, k: nat, j: nat)
    requires Whole(s) && b < |s.dev| && j < |s.ring| && s.ring[j] == b && |s.ring| >= 2
    requires var c := s.chains[Hash(s.dev[b], s.block[b])]; if s.dev[b] != 0 then k < |c| && c[k] == b else k >= |c|
    ensures 0 <= s.nf[b] < |s.nf| && 0 <= s.pf[b] < |s.nf|
    ensures var s' := Unringed(Unhashed(s, b, Hash(s.dev[b], s.block[b]), k), b, j);
            Loose(s', b) && s'.dev == s.dev && s'.block == s.block && s'.ring == Without(s.ring, j)
  {
    hide Hash;
    UnhashedLinks(s, b, k);
    var s1 := Unhashed(s, b, Hash(s.dev[b], s.block[b]), k);
    RingUnlinked(s.nf, s.pf, s.free, s.ring, j);
    WithoutOrder(s.ring, j, |s.dev|);
    var s' := Unringed(s1, b, j);
    hide Ring, Chain, Without;
    forall h: nat | h < NR_HASH ensures Bucket(s', h) { assert Bucket(s1, h); }
    forall c: nat | c < |s.dev| && c != b ensures Placed(s', c) { assert Placed(s, c); }
  }

  /** insert_into_queues of a loose buffer. */
  function Inserted(s: Index, b: nat): Index
    requires Sized(s) && b < |s.dev|
  {
    if !(0 <= s.free < |s.nf| && 0 <= s.pf[s.free] < |s.nf|) then s else
    var s1 := s.(nf := AppendNext(s.nf, s.pf, s.free, b), pf := AppendPrev(s.pf, s.free, b), ring := s.ring + [b]);
    if s.dev[b] == 0 then s1.(next := s.next[b := NONE], prev := s.prev[b := NONE])
    else
      var h := Hash(s.dev[b], s.block[b]);
      s1.(next := PushNext(s.next, b, s.hash[h]), prev := PushPrev(s.prev, b, s.hash[h]),
          hash := s.hash[h := b], chains := s.chains[h := [b] + s.chains[h]])
  }

  lemma InsertedWhole(s: Index, b: nat)
    requires Loose(s, b)
    ensures 0 <= s.free < |s.nf| && 0 <= s.pf[s.free] < |s.nf|
    ensures Whole(Inserted(s, b)) && Inserted(s, b).ring == s.ring + [b]
    ensures Inserted(s, b).dev == s.dev && Inserted(s, b).block == s.block
  {
    hide Hash;
    RingAppended(s.nf, s.pf, s.free, s.ring, b);
    var s' := Inserted(s, b);
    var h := Hash(s.dev[b], s.block[b]);
    assert Bucket(s, h);
    if s.dev[b] != 0 { ChainPushed(s.next, s.prev, s.chains[h], b); }
    forall g: nat | g < NR_HASH ensures Bucket(s', g) {
      assert Bucket(s, g);
      if s.dev[b] == 0 {
        LooseLinksFree(s, b, g);
      } else if g != h {
        OtherChainPushed(s.next, s.prev, s.chains[h], b, s.chains[g]);
      }
    }
    hide Ring, Chain;
    forall c: nat | c < |s.dev| ensures Placed(s', c) {
      if c != b {
        assert Placed(s, c);
        if s.dev[c] == 0 { LooseNull(s, b, c); }
      }
    }
  }

  /** The link fields of a buffer that is on no chain are free to change. */
  lemma LooseLinksFree(s: Index, b: nat, g: nat)
    requires Loose(s, b) && g < NR_HASH
    ensures Chain(s.next[b := NONE], s.prev[b := NONE], s.chains[g])
  {
    assert Bucket(s, g);
    var next', prev' := s.next[b := NONE], s.prev[b := NONE];
    forall i: nat | i < |s.chains[g]| ensures ChainLink(next', prev', s.chains[g], i) {
      assert ChainLink(s.next, s.prev, s.chains[g], i) && s.chains[g][i] in s.chains[g];
    }
  }

  /** Pushing b does not touch the links of an unhashed buffer. */
  lemma LooseNull(s: Index, b: nat, c: nat)
    requires Loose(s, b) && c < |s.dev| && c != b && s.dev[c] == 0
    ensures s.hash[Hash(s.dev[b], s.block[b])] != c
  {
    hide Hash;
    var h := Hash(s.dev[b], s.block[b]);
    assert Bucket(s, h);
    assert s.chains[h] != [] ==> s.chains[h][0] in s.chains[h];
  }
}
