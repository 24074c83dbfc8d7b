/** The routines of `fs/buffer.c` that work on the lists, in place, on arrays of buffer-head fields. */
module BufferTable {
  import opened Basics
  import opened BufferLists

  /** No block has two buffers. */
  ghost predicate Unique(dev: seq<nat>, block: seq<nat>)
    requires |dev| == |block|
  {
    forall a, b :: 0 <= a < b < |dev| && dev[a] != 0 ==> dev[a] != dev[b] || block[a] != block[b]
  }

  class Buffers {
    const b_dev: array<nat>
    const b_blocknr: array<nat>
    const b_next: array<int>
    const b_prev: array<int>
    const b_next_free: array<int>
    const b_prev_free: array<int>
    const hash_table: array<int>
    const b_count: array<nat>
    const b_lock: array<bool>
    const b_dirt: array<bool>
    const b_uptodate: array<bool>
    var free_list: int
    ghost var chains: seq<seq<nat>>
    ghost var ring: seq<nat>

    ghost function S(): Index
      reads this, b_dev, b_blocknr, b_next, b_prev, b_next_free, b_prev_free, hash_table
    {
      Index(b_dev[..], b_blocknr[..], b_next[..], b_prev[..], b_next_free[..], b_prev_free[..],
            hash_table[..], free_list, chains, ring)
    }

    /** The arrays are distinct objects of one length. */
    ghost predicate Arrays() {
      && b_next != b_prev && b_next != b_next_free && b_next != b_prev_free && b_next != hash_table
            && b_prev != b_next_free
      && b_prev != b_prev_free && b_prev != hash_table && b_next_free != b_prev_free && b_next_free != hash_table
            && b_prev_free != hash_table
      && b_dev != b_blocknr && b_dev != b_count && b_blocknr != b_count && b_lock != b_dirt && b_lock != b_uptodate
            && b_dirt != b_uptodate
      && {b_dev as object, b_blocknr, b_count} !! {b_next as object, b_prev, b_next_free, b_prev_free, hash_table}
      && b_count.Length == b_lock.Length == b_dirt.Length == b_uptodate.Length == b_dev.Length
    }

    static ghost function NoChains(): (c: seq<seq<nat>>)
      ensures |c| == NR_HASH && forall h :: 0 <= h < NR_HASH ==> c[h] == []
    {
      seq(NR_HASH, _ => [])
    }

    /** buffer_init: n unused buffers in a ring, every chain empty. */
    constructor (n: nat)
      requires n >= 2
      ensures Arrays() && Whole(S()) && ring == seq(n, i => i) && b_dev.Length == n
      ensures (forall b :: 0 <= b < n ==> b_dev[b] == 0) && (forall b :: 0 <= b < n ==> b_count[b] == 0)
      ensures (forall b :: 0 <= b < n ==> !b_lock[b]) && (forall b :: 0 <= b < n ==> !b_dirt[b])
      ensures forall b :: 0 <= b < n ==> !b_uptodate[b]
    {
      hide Whole, Threaded, Placed, NoChains;
      b_dev := new nat[n](_ => 0);
      b_blocknr := new nat[n](_ => 0);
      b_count := new nat[n](_ => 0);
      b_lock := new bool[n](_ => false);
      b_dirt := new bool[n](_ => false);
      b_uptodate := new bool[n](_ => false);
      b_next := new int[n](_ => NONE);
      b_prev := new int[n](_ => NONE);
      b_next_free := new int[n];
      b_prev_free := new int[n];
      hash_table := new int[NR_HASH](_ => NONE);
      free_list := 0;
      chains := NoChains();
      ring := seq(n, i => i);
      new;
      CloseRing(n);
    }

    method CloseRing(n: nat)
      requires Arrays() && Sized(S()) && b_dev.Length == n && free_list == 0 && ring == seq(n, i => i)
      requires (forall i :: 0 <= i < n ==> b_dev[i] == 0) && (forall i :: 0 <= i < n ==> b_next[i] == NONE)
      requires forall i :: 0 <= i < n ==> b_prev[i] == NONE
      requires (forall h :: 0 <= h < NR_HASH ==> hash_table[h] == NONE) && chains == NoChains()
      modifies b_next_free, b_prev_free
      ensures Whole(S())
    {
      hide Whole;
      ChainRing(n);
      EmptyIndexWhole(S(), n);
    }

    /** The loop of buffer_init, and the closing of the ring. */
    method ChainRing(n: nat)
      requires n >= 2 && b_next_free.Length == b_prev_free.Length == n && b_next_free != b_prev_free
      modifies b_next_free, b_prev_free
      ensures forall i :: 0 <= i < n ==> b_next_free[i] == if i + 1 < n then i + 1 else 0
      ensures forall i :: 0 <= i < n ==> b_prev_free[i] == if i > 0 then i - 1 else n - 1
    {
      var h := 0;
      while h < n
        invariant 0 <= h <= n
        invariant forall i :: 0 <= i < h ==> b_next_free[i] == i + 1 && b_prev_free[i] == i - 1
      {
        b_prev_free[h] := h - 1;
        b_next_free[h] := h + 1;
        h := h + 1;
      }
      b_prev_free[0] := n - 1;
      b_next_free[n - 1] := 0;
    }

    /** find_buffer: a search of one chain, which agrees with a search of all buffers. */
    method FindBuffer(dev: nat, block: nat) returns (bh: int)
      requires Whole(S()) && dev != 0
      ensures bh == NONE ==> forall b :: 0 <= b < b_dev.Length ==> b_dev[b] != dev || b_blocknr[b] != block
      ensures bh != NONE ==> 0 <= bh < b_dev.Length && b_dev[bh] == dev && b_blocknr[bh] == block
    {
      ghost var s := S();
      ghost var h := Hash(dev, block);
      ghost var c := s.chains[h];
      ghost var i := 0;
      assert Bucket(s, h);
      bh := hash_table[Hash(dev, block)];
      while bh != NONE && !(b_dev[bh] == dev && b_blocknr[bh] == block)
        invariant 0 <= i <= |c| && bh == At(c, i)
        invariant forall j :: 0 <= j < i ==> s.dev[c[j]] != dev || s.block[c[j]] != block
        decreases |c| - i
      {
        assert ChainLink(s.next, s.prev, c, i);
        bh := b_next[bh];
        i := i + 1;
      }
      if bh == NONE {
        forall b: nat | b < b_dev.Length ensures b_dev[b] != dev || b_blocknr[b] != block {
          assert Placed(s, b);
          assert b_dev[b] == dev && b_blocknr[b] == block ==> b in c;
        }
      }
    }

    /** The hash half of remove_from_queues. */
    method Unhash(bh: nat, ghost k: nat)
      requires Arrays() && Sized(S()) && bh < b_dev.Length
      requires b_next[bh] == NONE || 0 <= b_next[bh] < b_dev.Length
      requires b_prev[bh] == NONE || 0 <= b_prev[bh] < b_dev.Length
      requires b_next[bh] != NONE ==> b_next[bh] != bh
      requires b_prev[bh] != NONE ==> b_prev[bh] != bh
      modifies this`chains, b_next, b_prev, hash_table
      ensures S() == Unhashed(old(S()), bh, Hash(old(b_dev[bh]), old(b_blocknr[bh])), k)
    {
      var h := Hash(b_dev[bh], b_blocknr[bh]);
      hide Hash;
      if b_next[bh] != NONE { b_prev[b_next[bh]] := b_prev[bh]; }
      if b_prev[bh] != NONE { b_next[b_prev[bh]] := b_next[bh]; }
      if hash_table[h] == bh { hash_table[h] := b_next[bh]; }
      if k < |chains[h]| { chains := chains[h := Without(chains[h], k)]; }
    }

    /** The ring half. */
    method Unring(bh: nat, ghost j: nat)
      requires Arrays() && Sized(S()) && bh < b_dev.Length && j < |ring|
      requires 0 <= b_next_free[bh] < b_dev.Length && 0 <= b_prev_free[bh] < b_dev.Length && b_prev_free[bh] != bh
      modifies this`free_list, this`ring, b_next_free, b_prev_free
      ensures S() == Unringed(old(S()), bh, j)
    {
      b_next_free[b_prev_free[bh]] := b_next_free[bh];
      b_prev_free[b_next_free[bh]] := b_prev_free[bh];
      if free_list == bh { free_list := b_next_free[bh]; }
      ring := Without(ring, j);
    }

    method RemoveFromQueues(bh: nat)
      requires Arrays() && Whole(S()) && bh < b_dev.Length
      modifies this`free_list, this`chains, this`ring, b_next, b_prev, b_next_free, b_prev_free, hash_table
      ensures Loose(S(), bh) && b_dev[..] == old(b_dev[..]) && b_blocknr[..] == old(b_blocknr[..])
      ensures exists j: nat :: j < |old(ring)| && old(ring)[j] == bh && ring == Without(old(ring), j)
    {
      ghost var s := S();
      ghost var h := Hash(b_dev[bh], b_blocknr[bh]);
      hide Hash;
      assert Placed(s, bh) && Bucket(s, h);
      ghost var j: nat :| j < |ring| && ring[j] == bh;
      ghost var k: nat := |chains[h]|;
      if b_dev[bh] != 0 { k :| k < |chains[h]| && chains[h][k] == bh; }
      TwoOnRing(s);
      LinksInRange(s, bh, k, j);
      Removed(s, bh, k, j);
      hide Whole, Loose, Unhashed, Unringed;
      Unhash(bh, k);
      Unring(bh, j);
    }

    /** The ring half of insert_into_queues. */
    method AppendToRing(bh: nat)
      requires Arrays() && Sized(S()) && bh < b_dev.Length
      requires 0 <= free_list < b_dev.Length && 0 <= b_prev_free[free_list] < b_dev.Length
      requires free_list != bh && b_prev_free[free_list] != bh
      modifies this`ring, b_next_free, b_prev_free
      ensures S() == old(S()).(nf := AppendNext(old(b_next_free[..]), old(b_prev_free[..]), free_list, bh),
                               pf := AppendPrev(old(b_prev_free[..]), free_list, bh), ring := old(ring) + [bh])
    {
      b_next_free[bh] := free_list;
      b_prev_free[bh] := b_prev_free[free_list];
      b_next_free[b_prev_free[free_list]] := bh;
      b_prev_free[free_list] := bh;
      ring := ring + [bh];
    }

    /** The hash half. The store through b_next is made only when there is a next buffer. */
    method PushOnChain(bh: nat)
      requires Arrays() && Sized(S()) && bh < b_dev.Length
      requires var h := Hash(b_dev[bh], b_blocknr[bh]);
               hash_table[h] == NONE || (0 <= hash_table[h] < b_dev.Length && hash_table[h] != bh)
      modifies this`chains, b_next, b_prev, hash_table
      ensures var h := Hash(b_dev[bh], b_blocknr[bh]);
              S() == if b_dev[bh] == 0 then old(S()).(next := old(b_next[..])[bh := NONE],
                  prev := old(b_prev[..])[bh := NONE])
                     else old(S()).(next := PushNext(old(b_next[..]), bh, old(hash_table[h])),
                                    prev := PushPrev(old(b_prev[..]), bh, old(hash_table[h])),
                                    hash := old(hash_table[..])[h := bh],
                                        chains := old(chains)[h := [bh] + old(chains)[h]])
    {
      var h := Hash(b_dev[bh], b_blocknr[bh]);
      hide Hash;
      b_prev[bh] := NONE;
      b_next[bh] := NONE;
      if b_dev[bh] == 0 { return; }
      b_next[bh] := hash_table[h];
      hash_table[h] := bh;
      if b_next[bh] != NONE { b_prev[b_next[bh]] := bh; }
      chains := chains[h := [bh] + chains[h]];
    }

    /** insert_into_queues: to the end of the free list, and to the head of the chain of its hash. */
    method InsertIntoQueues(bh: nat)
      requires Arrays() && Loose(S(), bh)
      modifies this`chains, this`ring, b_next, b_prev, b_next_free, b_prev_free, hash_table
      ensures Whole(S()) && S() == Inserted(old(S()), bh) && ring == old(ring) + [bh]
    {
      InsertedWhole(S(), bh);
      BucketHead(S(), bh);
      hide Hash, Whole, Loose, Threaded;
      AppendToRing(bh);
      PushOnChain(bh);
    }

    /** The end of getblk: an unused, unlocked, clean buffer is given to a block that no buffer holds
        yet, and goes to the end of the free list. */
    method Reassign(bh: nat, dev: nat, block: nat)
      requires Arrays() && Whole(S()) && bh < b_dev.Length && dev != 0
      requires b_count[bh] == 0 && !b_lock[bh] && !b_dirt[bh]
      requires forall b :: 0 <= b < b_dev.Length ==> b_dev[b] != dev || b_blocknr[b] != block
      modifies this`free_list, this`chains, this`ring, b_dev, b_blocknr, b_next, b_prev, b_next_free, b_prev_free,
          hash_table
      modifies b_count, b_dirt, b_uptodate
      ensures Whole(S())
      ensures b_dev[..] == old(b_dev[..])[bh := dev] && b_blocknr[..] == old(b_blocknr[..])[bh := block]
      ensures Unique(old(b_dev[..]), old(b_blocknr[..])) ==> Unique(b_dev[..], b_blocknr[..])
      ensures b_count[..] == old(b_count[..])[bh := 1]
      ensures b_dirt[..] == old(b_dirt[..]) && b_uptodate[..] == old(b_uptodate[..])[bh := false]
      ensures exists j: nat :: j < |old(ring)| && old(ring)[j] == bh && ring == Without(old(ring), j) + [bh]
    {
      hide Whole, Hash;
      b_count[bh] := 1;
      b_dirt[bh] := false;
      b_uptodate[bh] := false;
      RemoveFromQueues(bh);
      ghost var s := S();
      b_dev[bh] := dev;
      b_blocknr[bh] := block;
      LooseRelabelled(s, S(), bh);
      InsertIntoQueues(bh);
    }

    predicate Unused(b: nat)
      requires b < b_count.Length
      reads b_count
    {
      b_count[b] == 0
    }

    function Badness(b: nat): nat
      requires b < b_lock.Length && b < b_dirt.Length
      reads b_lock, b_dirt
    {
      (if b_dirt[b] then 2 else 0) + (if b_lock[b] then 1 else 0)
    }

    /** Every buffer before position k of the ring is in use or worse than bh. */
    ghost predicate WorseBefore(bh: nat, k: nat)
      requires Arrays() && bh < b_dev.Length
      reads this, b_count, b_lock, b_dirt
    {
      forall i :: 0 <= i < k && i < |ring| && ring[i] < b_dev.Length ==>
        b_count[ring[i]] != 0 || Badness(ring[i]) > Badness(bh)
    }

    /** The scan of getblk: the least recently used of the unused buffers that are least bad, and none
        only if every buffer is in use. */
    method PickVictim() returns (bh: int)
      requires Arrays() && Whole(S())
      ensures bh == NONE ==> forall b :: 0 <= b < b_dev.Length ==> b_count[b] != 0
      ensures bh != NONE ==> 0 <= bh < b_dev.Length && b_count[bh] == 0
      ensures bh != NONE ==> forall b :: 0 <= b < b_dev.Length && b_count[b] == 0 ==> Badness(bh) <= Badness(b)
      ensures bh != NONE ==> exists k: nat :: k < |ring| && ring[k] == bh && WorseBefore(bh, k)
      ensures bh != NONE && b_dirt[bh] ==> forall b :: 0 <= b < b_dev.Length && b_count[b] == 0 ==> b_dirt[b]
      ensures bh != NONE && b_lock[bh] ==>
                forall b :: 0 <= b < b_dev.Length && b_count[b] == 0 && b_dirt[b] == b_dirt[bh] ==> b_lock[b]
    {
      var tmp := free_list;
      ghost var i, k := 0, 0;
      bh := NONE;
      while true
        invariant 0 <= i < |ring| && tmp == ring[i]
        invariant bh == NONE ==> forall j :: 0 <= j < i ==> b_count[ring[j]] != 0
        invariant bh != NONE ==> 0 <= k < i && bh == ring[k] && b_count[bh] == 0
        invariant bh != NONE ==> forall j :: 0 <= j < k ==> b_count[ring[j]] != 0 || Badness(ring[j]) > Badness(bh)
        invariant bh != NONE ==> forall j :: 0 <= j < i ==> b_count[ring[j]] != 0 || Badness(ring[j]) >= Badness(bh)
        decreases |ring| - i
      {
        if b_count[tmp] == 0 && (bh == NONE || Badness(tmp) < Badness(bh)) {
          bh := tmp;
          k := i;
          if Badness(tmp) == 0 { break; }
        }
        assert RingLink(S().nf, S().pf, ring, i);
        tmp := b_next_free[tmp];
        i := i + 1;
        if tmp == free_list {
          assert i == |ring|;
          break;
        }
      }
      forall b | 0 <= b < b_dev.Length && b_count[b] == 0 ensures bh != NONE && Badness(bh) <= Badness(b) {
        assert Placed(S(), b);
        var j :| 0 <= j < |ring| && ring[j] == b;
      }
    }
  }

  lemma TwoOnRing(s: Index)
    requires Whole(s)
    ensures |s.ring| >= 2
  {
    assert Placed(s, 0) && Placed(s, 1);
  }

  /** Nothing in remove_from_queues goes through a stray pointer, and the panic for a corrupted free
      list cannot happen. */
  lemma LinksInRange(s: Index, b: nat, k: nat, j: nat)
    requires Whole(s) && b < |s.dev| && j < |s.ring| && s.ring[j] == b && |s.ring| >= 2
    requires var c := s.chains[Hash(s.dev[b], s.block[b])]; if s.dev[b] != 0 then k < |c| && c[k] == b else k >= |c|
    ensures s.next[b] == NONE || (0 <= s.next[b] < |s.dev| && s.next[b] != b)
    ensures s.prev[b] == NONE || (0 <= s.prev[b] < |s.dev| && s.prev[b] != b)
    ensures 0 <= s.nf[b] < |s.dev| && 0 <= s.pf[b] < |s.dev| && s.pf[b] != b
  {
    hide Hash;
    var h := Hash(s.dev[b], s.block[b]);
    assert Placed(s, b) && Bucket(s, h) && RingLink(s.nf, s.pf, s.ring, j);
    if s.dev[b] != 0 { assert ChainLink(s.next, s.prev, s.chains[h], k); }
  }

  lemma EmptyIndexWhole(s: Index, n: nat)
    requires Sized(s) && |s.dev| == n && s.free == 0 && s.ring == seq(n, i => i)
    requires forall i :: 0 <= i < n ==> s.dev[i] == 0 && s.next[i] == NONE && s.prev[i] == NONE
    requires forall i :: 0 <= i < n ==>
               s.nf[i] == (if i + 1 < n then i + 1 else 0) && s.pf[i] == if i > 0 then i - 1 else n - 1
    requires forall h :: 0 <= h < NR_HASH ==> s.hash[h] == NONE && s.chains[h] == []
    ensures Whole(s)
  {
    forall i: nat | i < n ensures RingLink(s.nf, s.pf, s.ring, i) {}
    forall b: nat | b < n ensures Placed(s, b) { assert s.ring[b] == b; }
  }

  lemma BucketHead(s: Index, b: nat)
    requires Loose(s, b)
    ensures 0 <= s.free < |s.dev| && 0 <= s.pf[s.free] < |s.dev| && s.free != b && s.pf[s.free] != b
    ensures var h := Hash(s.dev[b], s.block[b]); s.hash[h] == NONE || (0 <= s.hash[h] < |s.dev| && s.hash[h] != b)
  {
    var h := Hash(s.dev[b], s.block[b]);
    hide Hash;
    assert Bucket(s, h) && RingLink(s.nf, s.pf, s.ring, 0);
    var last := s.ring[|s.ring| - 1];
    assert s.ring[0] in s.ring && last in s.ring;
    assert s.chains[h] != [] ==> s.chains[h][0] in s.chains[h];
  }

  /** The name of a loose buffer may change: no chain depends on it. */
  lemma LooseRelabelled(s: Index, s': Index, b: nat)
    requires Loose(s, b) && |s'.dev| == |s.dev| && |s'.block| == |s.block|
    requires s' == s.(dev := s'.dev, block := s'.block)
    requires forall c :: 0 <= c < |s.dev| && c != b ==> s'.dev[c] == s.dev[c] && s'.block[c] == s.block[c]
    ensures Loose(s', b)
  {
    hide Hash;
    forall h: nat | h < NR_HASH ensures Bucket(s', h) { assert Bucket(s, h); }
    forall c: nat | c < |s.dev| && c != b ensures Placed(s', c) { assert Placed(s, c); }
  }
}
