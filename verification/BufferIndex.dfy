/** The lists of the buffer cache carried through every interleaving: a re-assigned buffer moves to the chain of
    its new hash and to the end of the ring, in one step of its process; nothing else touches the lists. */
module BufferIndex {
  import opened Basics
  import opened BufferCache
  import L = BufferLists
  import T = BufferTable

  /** The lists are whole and name the blocks the buffers hold. */
  ghost predicate Agrees(s: State, x: L.Index) {
    && L.Whole(x) && |x.dev| == |s.bufs|
    && forall b :: 0 <= b < |s.bufs| ==> x.dev[b] == s.bufs[b].key.dev && x.block[b] == s.bufs[b].key.no
  }

  /** Where buffer b stands on its chain; past the end if it is on none. */
  ghost function OnChain(x: L.Index, b: nat): nat
    requires L.Whole(x) && b < |x.dev|
  {
    assert L.Placed(x, b);
    var c := x.chains[L.Hash(x.dev[b], x.block[b])];
    if x.dev[b] != 0 then IndexOf(c, b) else |c|
  }

  /** remove_from_queues, the new name, insert_into_queues. */
  ghost function Moved(x: L.Index, b: nat, k: Blk): (y: L.Index)
    requires L.Whole(x) && b < |x.dev|
    ensures L.Whole(y) && y.dev == x.dev[b := k.dev] && y.block == x.block[b := k.no]
  {
    assert L.Placed(x, b);
    var j, i := IndexOf(x.ring, b), OnChain(x, b);
    T.TwoOnRing(x);
    L.Removed(x, b, i, j);
    var out := L.Unringed(L.Unhashed(x, b, L.Hash(x.dev[b], x.block[b]), i), b, j);
    var named := out.(dev := out.dev[b := k.dev], block := out.block[b := k.no]);
    T.LooseRelabelled(out, named, b);
    L.InsertedWhole(named, b);
    L.Inserted(named, b)
  }

  /** The buffer a step may give to another block: the victim of a process whose wait for it is over. */
  predicate IsVictim(s: State, e: Step, b: nat) {
    e.Run? && e.p < |s.procs| && s.procs[e.p].VictimWait? && s.procs[e.p].b == b
  }

  lemma OnlyVictimMoves(s: State, e: Step, b: nat)
    requires Sized(s) && b < |s.bufs|
    ensures |Next(s, e).bufs| == |s.bufs| && (Next(s, e).bufs[b].key != s.bufs[b].key ==> IsVictim(s, e, b))
  {
    if e.Run? && e.p < |s.procs| {
      ResumeRenaming(s, e.p, e.choice, e.slot, b);
      hide Resume;
    }
  }

  /** The lists after a step. */
  ghost function NextIndex(s: State, x: L.Index, e: Step): L.Index
    requires Sized(s) && Agrees(s, x)
  {
    if e.Run? && e.p < |s.procs| && s.procs[e.p].VictimWait? && s.procs[e.p].b < |s.bufs| then
      var b := s.procs[e.p].b;
      OnlyVictimMoves(s, e, b);
      if Next(s, e).bufs[b].key != s.bufs[b].key then Moved(x, b, Next(s, e).bufs[b].key) else x
    else x
  }

  /** Every step keeps the lists whole and true. */
  lemma StepKeepsIndex(s: State, x: L.Index, e: Step)
    requires Sized(s) && Agrees(s, x)
    ensures Agrees(Next(s, e), NextIndex(s, x, e))
  {
    NextSized(s, e);
    var r, y := Next(s, e), NextIndex(s, x, e);
    forall b: nat | b < |s.bufs| ensures y.dev[b] == r.bufs[b].key.dev && y.block[b] == r.bufs[b].key.no {
      OnlyVictimMoves(s, e, b);
      hide Next, Moved, L.Whole;
    }
    hide Next, Moved, L.Whole;
  }

  /** In every state, searching the chain of a block's hash is searching all buffers. */
  lemma FindOnChain(s: State, x: L.Index, k: Blk, b: nat)
    requires Unique(s.bufs) && Agrees(s, x) && k.dev != 0 && b < |s.bufs|
    ensures Find(s.bufs, k) == Some(b) <==> b in x.chains[L.Hash(k.dev, k.no)] && s.bufs[b].key == k
  {
    hide L.Hash;
    assert L.Placed(x, b);
    if s.bufs[b].key == k {
      var c := Find(s.bufs, k);
      assert c.Some? && s.bufs[c.value].key == k;
    }
  }

  ghost function RunIndex(s: State, x: L.Index, es: seq<Step>): L.Index
    requires Inv(s) && Agrees(s, x)
    decreases |es|
  {
    if es == [] then x
    else
      StepIsStore(s, es[0]);
      StepKeepsIndex(s, x, es[0]);
      RunIndex(Next(s, es[0]), NextIndex(s, x, es[0]), es[1..])
  }

  /** Over every run and every interleaving each buffer with a device is on exactly the chain of its hash, with
      next and previous links mutually inverse, and the ring holds every buffer exactly once. */
  lemma {:induction false} RunKeepsIndex(s: State, x: L.Index, es: seq<Step>)
    requires Inv(s) && Agrees(s, x)
    ensures Agrees(RunAll(s, es), RunIndex(s, x, es))
    decreases |es|
  {
    if es != [] {
      StepIsStore(s, es[0]);
      StepKeepsIndex(s, x, es[0]);
      hide Inv, Agrees, Next, NextIndex;
      RunKeepsIndex(Next(s, es[0]), NextIndex(s, x, es[0]), es[1..]);
    }
  }

  /** The lists as buffer_init leaves them; a buffer without a device may carry any block number. */
  function EmptyIndex(block: seq<nat>): L.Index {
    var n := |block|;
    L.Index(seq(n, _ => 0), block, seq(n, _ => NONE), seq(n, _ => NONE),
            seq(n, i => if i + 1 < n then i + 1 else 0), seq(n, i => if i > 0 then i - 1 else n - 1),
            seq(L.NR_HASH, _ => NONE), 0, seq(L.NR_HASH, _ => []), seq(n, i => i))
  }

  lemma FreshAgrees(s: State)
    requires Fresh(s) && |s.bufs| >= 2
    ensures Agrees(s, EmptyIndex(Numbers(s)))
  {
    T.EmptyIndexWhole(EmptyIndex(Numbers(s)), |s.bufs|);
  }

  function Numbers(s: State): seq<nat> {
    seq(|s.bufs|, b requires 0 <= b < |s.bufs| => s.bufs[b].key.no)
  }
}
